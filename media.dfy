/** Classification of an uploaded file into the post's `image` or `video` slot.
    Creating and updating a post classify by two different rules. */
module Media {
  import opened Outcomes
  import opened Strings

  /** What the upload middleware reports about the single `file` field: the declared
      mimetype, the stored file name (a clock value plus the original extension) and
      the path it was written to. */
  datatype Upload = Upload(mimetype: string, filename: string, path: string)

  datatype Slot = Image | Video

  /** Post creation: `mimetype.startsWith('image')` selects the image slot, and every
      other mimetype the video slot. Where the update rule picks a slot the create rule
      picks the same one; the rules differ only on types that the update rule ignores. */
  function CreateSlot(mimetype: string): (s: Slot)
    ensures s == Image <==> "image" <= mimetype
    ensures UpdateSlot(mimetype).Some? ==> s == UpdateSlot(mimetype).value
  {
    assert "video/" <= mimetype || mimetype == "video" ==> mimetype[0] == 'v';
    if "image" <= mimetype then Image else Video
  }

  /** Post update: `mimetype.split('/')[0]` is compared with `image` and `video`;
      any other type selects no slot. In terms of prefixes, a type is an image exactly
      when it is `image` or starts with `image/`, and a video exactly when it is
      `video` or starts with `video/`. */
  function UpdateSlot(mimetype: string): (s: Option<Slot>)
    ensures s == Some(Image) <==> mimetype == "image" || "image/" <= mimetype
    ensures s == Some(Video) <==> mimetype == "video" || "video/" <= mimetype
  {
    FirstPiece(mimetype, '/', "image");
    FirstPiece(mimetype, '/', "video");
    assert "image" + ['/'] == "image/";
    assert "video" + ['/'] == "video/";
    var kind := Split(mimetype, '/')[0];
    if kind == "image" then Some(Image)
    else if kind == "video" then Some(Video)
    else None
  }

  /** Everything else, including `imagery/x` and `application/pdf`, is ignored on update. */
  lemma UpdateSlotNone(mimetype: string)
    ensures UpdateSlot(mimetype) == None <==>
      !(mimetype == "image" || "image/" <= mimetype || mimetype == "video" || "video/" <= mimetype)
  {
  }

  /** The two rules really differ: `imagery/x` is an image to the create rule but nothing
      to the update rule, and `application/pdf` is a video to the create rule but nothing
      to the update rule. */
  lemma RulesDiffer()
    ensures CreateSlot("imagery/x") == Image && UpdateSlot("imagery/x") == None
    ensures CreateSlot("application/pdf") == Video && UpdateSlot("application/pdf") == None
  {
    UpdateSlotNone("imagery/x");
    UpdateSlotNone("application/pdf");
    assert !("image/" <= "imagery/x");
    assert !("video/" <= "application/pdf") && !("image/" <= "application/pdf");
  }
}
