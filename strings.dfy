/** The JavaScript string behaviour the handlers depend on: `String.prototype.split`
    with a one-character separator, and the truthiness of an optional string. */
module Strings {
  import opened Outcomes

  /** A request field is truthy in JavaScript when it is present and not the empty string:
      the only falsy values a string field can take are `undefined` and `''`. */
  predicate Truthy(v: Option<string>)
    ensures Truthy(v) <==> v != None && v != Some("")
  {
    v.Some? && v.value != ""
  }

  /** Position of the first occurrence of `c` in `s`. */
  function IndexOf(s: string, c: char): (k: nat)
    requires c in s
    ensures k < |s| && s[k] == c && c !in s[..k]
  {
    if s[0] == c then 0
    else
      assert s == [s[0]] + s[1..];
      var k' := IndexOf(s[1..], c);
      assert s[..k' + 1] == [s[0]] + s[1..][..k'];
      k' + 1
  }

  /** The first occurrence is unique: any position holding `c` with no `c` before it is it. */
  lemma FirstOccurrence(s: string, c: char, j: nat)
    requires j < |s| && s[j] == c && c !in s[..j]
    ensures c in s && IndexOf(s, c) == j
  {
  }

  /** `s.split(sep)`: the maximal pieces of `s` between occurrences of `sep`.
      As in JavaScript there is always at least one piece, and adjacent
      separators yield empty pieces; there is more than one piece exactly when
      `s` holds the separator. */
  function Split(s: string, sep: char): (parts: seq<string>)
    ensures |parts| >= 1
    ensures |parts| == 1 <==> sep !in s
    decreases |s|
  {
    if sep !in s then [s]
    else
      var k := IndexOf(s, sep);
      [s[..k]] + Split(s[k + 1..], sep)
  }

  /** The pieces hold no separator. */
  lemma {:induction false} SplitPieces(s: string, sep: char)
    ensures forall i :: 0 <= i < |Split(s, sep)| ==> sep !in Split(s, sep)[i]
    decreases |s|
  {
    if sep in s {
      var k := IndexOf(s, sep);
      SplitPieces(s[k + 1..], sep);
      assert Split(s, sep) == [s[..k]] + Split(s[k + 1..], sep);
    }
  }

  /** The pieces glued back together with `sep` in between (`parts.join(sep)`). */
  function Join(parts: seq<string>, sep: char): (s: string)
    requires |parts| >= 1
  {
    if |parts| == 1 then parts[0] else parts[0] + [sep] + Join(parts[1..], sep)
  }

  /** Joining a piece in front of at least one more piece puts a separator between them. */
  lemma JoinCons(x: string, rest: seq<string>, sep: char)
    requires |rest| >= 1
    ensures Join([x] + rest, sep) == x + [sep] + Join(rest, sep)
  {
    assert ([x] + rest)[1..] == rest;
  }

  /** Splitting at a first separator peels off the part before it. */
  lemma SplitAtFirst(a: string, b: string, sep: char)
    requires sep !in a
    ensures Split(a + [sep] + b, sep) == [a] + Split(b, sep)
  {
    var s := a + [sep] + b;
    assert s[..|a|] == a;
    FirstOccurrence(s, sep, |a|);
    assert s[|a| + 1..] == b;
  }

  /** Splitting loses nothing: joining the pieces gives back the original string. */
  lemma {:induction false} JoinSplit(s: string, sep: char)
    ensures Join(Split(s, sep), sep) == s
    decreases |s|
  {
    if sep in s {
      var k := IndexOf(s, sep);
      var a, b := s[..k], s[k + 1..];
      assert s == a + [sep] + b;
      SplitAtFirst(a, b, sep);
      JoinSplit(b, sep);
      JoinCons(a, Split(b, sep), sep);
    }
  }

  /** Splitting the join of separator-free pieces gives back exactly those pieces. */
  lemma {:induction false} SplitJoin(parts: seq<string>, sep: char)
    requires |parts| >= 1
    requires forall i :: 0 <= i < |parts| ==> sep !in parts[i]
    ensures Split(Join(parts, sep), sep) == parts
  {
    if |parts| > 1 {
      var rest := parts[1..];
      SplitJoin(rest, sep);
      assert Join(parts, sep) == parts[0] + [sep] + Join(rest, sep);
      SplitAtFirst(parts[0], Join(rest, sep), sep);
      assert parts == [parts[0]] + rest;
    }
  }

  /** A string that starts with `p + [c]` contains `c`. */
  lemma PrefixMember(p: string, c: char, s: string)
    requires p + [c] <= s
    ensures c in s
  {
    assert s[|p|] == c;
  }

  /** The first piece of `s.split(sep)` is the separator-free word `w` exactly when `s`
      is `w` itself or starts with `w` followed by `sep`. */
  lemma FirstPiece(s: string, sep: char, w: string)
    requires sep !in w
    ensures Split(s, sep)[0] == w <==> s == w || w + [sep] <= s
  {
    if sep in s {
      var k := IndexOf(s, sep);
      assert Split(s, sep)[0] == s[..k];
      if s[..k] == w {
        assert s[..k + 1] == w + [sep];
        assert s[..k + 1] <= s;
      }
      if w + [sep] <= s {
        assert s[..|w|] == w;
        assert s[|w|] == sep;
        FirstOccurrence(s, sep, |w|);
        assert s[..k] == w;
      }
    } else if w + [sep] <= s {
      PrefixMember(w, sep, s);
    }
  }
}
