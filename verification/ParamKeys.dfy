/** Bracketed parameter keys such as `pets[][name]` (src/model/params.rs, `param_key_segments`). */
module ParamKeys {
  import opened Prelude

  /** `str::find` for one character. */
  function Find(s: string, c: char): (r: Option<nat>)
    ensures r.Some? ==> r.value < |s| && s[r.value] == c && c !in s[..r.value]
    ensures r.None? ==> c !in s
  {
    if s == [] then None
    else if s[0] == c then Some(0)
    else
      var r := Find(s[1..], c);
      assert r.Some? ==> s[..r.value + 1] == [s[0]] + s[1..][..r.value];
      if r.None? then None else Some(r.value + 1)
  }

  /** `[a][b]...`, or nothing when a bracket is missing. */
  function Brackets(rest: string): Option<seq<string>> {
    if rest == [] then Some([])
    else if rest[0] != '[' then None
    else
      match Find(rest, ']')
      case None => None
      case Some(end) =>
        match Brackets(rest[end + 1..])
        case None => None
        case Some(more) => Some([rest[1..end]] + more)
  }

  /** The segments of a key; a key that is not of the bracketed form is one segment. */
  function Segments(key: string): (segments: seq<string>)
    ensures segments != []
  {
    match Find(key, '[')
    case None => [key]
    case Some(first) =>
      if first == 0 then [key]
      else
        match Brackets(key[first..])
        case None => [key]
        case Some(more) => [key[..first]] + more
  }

  method ParamKeySegments(key: string) returns (segments: seq<string>)
    ensures segments == Segments(key)
  {
    var first := Find(key, '[');
    if first.None? {
      return [key];
    }
    var root := key[..first.value];
    if root == [] {
      return [key];
    }
    segments := [root];
    var rest := key[first.value..];
    while rest != []
      invariant Brackets(key[first.value..]).None? ==> Brackets(rest).None?
      invariant Brackets(key[first.value..]).Some? ==>
        Brackets(rest).Some? && segments + Brackets(rest).value == [root] + Brackets(key[first.value..]).value
      decreases |rest|
    {
      if rest[0] != '[' {
        return [key];
      }
      var end := Find(rest, ']');
      if end.None? {
        return [key];
      }
      segments := segments + [rest[1..end.value]];
      rest := rest[end.value + 1..];
    }
  }

  /* ---------- Printing ---------- */

  function PrintBrackets(segments: seq<string>): string {
    if segments == [] then "" else "[" + segments[0] + "]" + PrintBrackets(segments[1..])
  }

  function PrintKey(segments: seq<string>): string
    requires segments != []
  {
    segments[0] + PrintBrackets(segments[1..])
  }

  lemma PrintedFirst(segment: string, more: seq<string>)
    ensures PrintBrackets([segment] + more) == "[" + segment + "]" + PrintBrackets(more)
  {
    assert ([segment] + more)[1..] == more;
  }

  lemma {:induction false} PrintedBrackets(rest: string)
    requires Brackets(rest).Some?
    ensures PrintBrackets(Brackets(rest).value) == rest
  {
    if rest != [] {
      var end := Find(rest, ']').value;
      var segment, after := rest[1..end], rest[end + 1..];
      PrintedBrackets(after);
      PrintedFirst(segment, Brackets(after).value);
      assert rest == "[" + segment + "]" + after;
    }
  }

  lemma PrintedAlone(key: string)
    ensures PrintKey([key]) == key
  {
    assert [key][1..] == [];
  }

  /** Printing the segments of any key gives the key back; so no two keys share their segments. */
  lemma PrintedSegments(key: string)
    ensures PrintKey(Segments(key)) == key
  {
    hide Find, Brackets, PrintBrackets;
    var first := Find(key, '[');
    if first.Some? && first.value > 0 && Brackets(key[first.value..]).Some? {
      var root, more := key[..first.value], Brackets(key[first.value..]).value;
      PrintedBrackets(key[first.value..]);
      assert ([root] + more)[1..] == more;
      assert key == root + key[first.value..];
    } else {
      PrintedAlone(key);
    }
  }

  lemma SegmentsInjective(a: string, b: string)
    requires Segments(a) == Segments(b)
    ensures a == b
  {
    PrintedSegments(a);
    PrintedSegments(b);
  }

  lemma FoundAt(s: string, c: char, before: string, after: string)
    requires s == before + [c] + after && c !in before
    ensures Find(s, c) == Some(|before|)
  {
    assert s[|before|] == c;
    assert forall i :: 0 <= i < |before| ==> s[i] == before[i];
    var r := Find(s, c).value;
    assert forall i :: 0 <= i < r ==> s[i] == s[..r][i];
  }

  lemma {:induction false} ReadBrackets(segments: seq<string>)
    requires forall s :: s in segments ==> ']' !in s
    ensures Brackets(PrintBrackets(segments)) == Some(segments)
  {
    if segments != [] {
      var rest := PrintBrackets(segments);
      var more := PrintBrackets(segments[1..]);
      assert segments[0] in segments;
      assert rest == ("[" + segments[0]) + "]" + more;
      FoundAt(rest, ']', "[" + segments[0], more);
      var end := 1 + |segments[0]|;
      assert rest[1..end] == segments[0];
      assert rest[end + 1..] == more;
      ReadBrackets(segments[1..]);
      assert segments == [segments[0]] + segments[1..];
    }
  }

  /** Lists the printer writes unambiguously: no `[` in the root, which is not empty when
      segments follow, and no `]` in a segment. */
  predicate Unambiguous(segments: seq<string>) {
    && segments != []
    && '[' !in segments[0]
    && (|segments| > 1 ==> segments[0] != "")
    && forall i :: 1 <= i < |segments| ==> ']' !in segments[i]
  }

  lemma ReadRoot(root: string, printed: string)
    requires '[' !in root && root != "" && printed != "" && printed[0] == '[' && Brackets(printed).Some?
    ensures Segments(root + printed) == [root] + Brackets(printed).value
  {
    hide Brackets, Find;
    var key := root + printed;
    assert key == root + ['['] + printed[1..];
    FoundAt(key, '[', root, printed[1..]);
    assert key[..|root|] == root && key[|root|..] == printed;
  }

  lemma ReadPrinted(segments: seq<string>)
    requires Unambiguous(segments)
    ensures Segments(PrintKey(segments)) == segments
  {
    var root, more := segments[0], segments[1..];
    assert segments == [root] + more;
    if more == [] {
      PrintedAlone(root);
    } else {
      ReadBrackets(more);
      ReadRoot(root, PrintBrackets(more));
    }
  }

  /** Every list the parser produces is one whole key or an unambiguous list. */
  lemma {:induction false} BracketSegmentsClean(rest: string)
    requires Brackets(rest).Some?
    ensures forall s :: s in Brackets(rest).value ==> ']' !in s
  {
    if rest != [] {
      var end := Find(rest, ']').value;
      BracketSegmentsClean(rest[end + 1..]);
      forall i | 0 <= i < |rest[1..end]| ensures rest[1..end][i] != ']' {
        assert rest[1..end][i] == rest[..end][i + 1];
      }
    }
  }

  lemma SegmentsAreCanonical(key: string)
    ensures Segments(key) == [key] || Unambiguous(Segments(key))
  {
    var first := Find(key, '[');
    if first.Some? && Brackets(key[first.value..]).Some? {
      BracketSegmentsClean(key[first.value..]);
    }
  }
}
