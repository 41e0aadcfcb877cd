/** Column affinity, section 3.1 of SQLite's "Datatypes In SQLite" (src/schema/types.rs). */
module Affinity {

  datatype SqlAffinity = INTEGER | REAL | TEXT | BLOB | NUMERIC

  /** The characters `str::trim` removes. */
  predicate IsWhitespace(c: char) {
    || '\t' <= c <= '\r' || c == ' ' || c == '\U{0085}' || c == '\U{00A0}' || c == '\U{1680}'
    || '\U{2000}' <= c <= '\U{200A}' || c == '\U{2028}' || c == '\U{2029}' || c == '\U{202F}'
    || c == '\U{205F}' || c == '\U{3000}'
  }

  function TrimStart(s: string): string {
    if s != "" && IsWhitespace(s[0]) then TrimStart(s[1..]) else s
  }

  function TrimEnd(s: string): string {
    if s != "" && IsWhitespace(s[|s| - 1]) then TrimEnd(s[..|s| - 1]) else s
  }

  function Trim(s: string): string {
    TrimEnd(TrimStart(s))
  }

  function UpperChar(c: char): char {
    if 'a' <= c <= 'z' then ((c as int) - 32) as char else c
  }

  function Upper(s: string): string {
    if s == "" then "" else [UpperChar(s[0])] + Upper(s[1..])
  }

  predicate Contains(s: string, part: string) {
    part <= s || (s != "" && Contains(s[1..], part))
  }

  /** The five rules, in the order that settles overlaps such as "FLOATING POINT". */
  function AffinityOf(upper: string): SqlAffinity {
    if Contains(upper, "INT") then INTEGER
    else if Contains(upper, "CHAR") || Contains(upper, "CLOB") || Contains(upper, "TEXT") then TEXT
    else if Contains(upper, "BLOB") || upper == "" then BLOB
    else if Contains(upper, "REAL") || Contains(upper, "FLOA") || Contains(upper, "DOUB") then REAL
    else NUMERIC
  }

  /** `SqlAffinity::from_declared_type`. */
  function FromDeclaredType(declared: string): SqlAffinity {
    AffinityOf(Upper(Trim(declared)))
  }

  lemma {:induction false} UpperIdempotent(s: string)
    ensures |Upper(s)| == |s| && Upper(Upper(s)) == Upper(s)
    ensures forall i :: 0 <= i < |s| ==> Upper(s)[i] == UpperChar(s[i])
  {
    if s != "" { UpperIdempotent(s[1..]); }
  }

  lemma {:induction false} UpperTrimStart(s: string)
    ensures Upper(TrimStart(s)) == TrimStart(Upper(s))
  {
    UpperIdempotent(s);
    if s != "" && IsWhitespace(s[0]) {
      assert Upper(s)[1..] == Upper(s[1..]);
      UpperTrimStart(s[1..]);
    }
  }

  lemma UpperPrefix(s: string, n: nat)
    requires n <= |s|
    ensures |Upper(s)| == |s| && Upper(s[..n]) == Upper(s)[..n]
  {
    UpperIdempotent(s);
    UpperIdempotent(s[..n]);
  }

  lemma {:induction false} UpperTrimEnd(s: string)
    ensures Upper(TrimEnd(s)) == TrimEnd(Upper(s))
  {
    UpperIdempotent(s);
    if s != "" && IsWhitespace(s[|s| - 1]) {
      UpperPrefix(s, |s| - 1);
      UpperTrimEnd(s[..|s| - 1]);
    }
  }

  /** Affinity does not see ASCII letter case. */
  lemma AffinityIgnoresCase(declared: string)
    ensures FromDeclaredType(Upper(declared)) == FromDeclaredType(declared)
  {
    UpperTrimStart(declared);
    UpperTrimEnd(TrimStart(declared));
    UpperIdempotent(Trim(declared));
    assert Upper(Trim(Upper(declared))) == Upper(Trim(declared));
  }

  /* ---------- The rules, without trimming ---------- */

  /** `part` stands somewhere in `s`. */
  predicate Mentions(s: string, part: string) {
    exists i :: 0 <= i <= |s| - |part| && s[i..][..|part|] == part
  }

  lemma {:induction false} ContainsMeaning(s: string, part: string)
    ensures Contains(s, part) <==> Mentions(s, part)
  {
    if part <= s {
      assert s[0..][..|part|] == part;
    } else if s != "" {
      ContainsMeaning(s[1..], part);
      if Mentions(s[1..], part) {
        var i :| 0 <= i <= |s[1..]| - |part| && s[1..][i..][..|part|] == part;
        assert s[i + 1..][..|part|] == part;
      }
      if Mentions(s, part) {
        var i :| 0 <= i <= |s| - |part| && s[i..][..|part|] == part;
        assert i > 0 && s[1..][i - 1..] == s[i..];
      }
    }
  }

  /** A word has no whitespace at either end. */
  predicate IsWord(part: string) {
    part != "" && !IsWhitespace(part[0]) && !IsWhitespace(part[|part| - 1])
  }

  lemma PrefixHead(s: string, part: string)
    requires part != "" && part <= s
    ensures s != "" && s[0] == part[0]
  {
  }

  lemma {:induction false} TrimStartMentions(s: string, part: string)
    requires IsWord(part)
    ensures Contains(TrimStart(s), part) <==> Contains(s, part)
  {
    if s != "" && IsWhitespace(s[0]) {
      TrimStartMentions(s[1..], part);
      if part <= s { PrefixHead(s, part); }
    }
  }

  lemma {:induction false} TrimEndMentions(s: string, part: string)
    requires IsWord(part)
    ensures Mentions(TrimEnd(s), part) <==> Mentions(s, part)
  {
    hide IsWhitespace, Mentions;
    if s != "" && IsWhitespace(s[|s| - 1]) {
      TrimEndMentions(s[..|s| - 1], part);
      LastCharacter(s[..|s| - 1], s[|s| - 1], part);
      assert s == s[..|s| - 1] + [s[|s| - 1]];
    }
  }

  lemma LastCharacter(front: string, c: char, part: string)
    requires part != "" && part[|part| - 1] != c
    ensures Mentions(front + [c], part) <==> Mentions(front, part)
  {
    var s := front + [c];
    if i :| 0 <= i <= |front| - |part| && front[i..][..|part|] == part {
      assert s[i..][..|part|] == part;
    }
    if i :| 0 <= i <= |s| - |part| && s[i..][..|part|] == part {
      assert part[|part| - 1] == s[i + |part| - 1];
      assert front[i..][..|part|] == part;
    }
  }

  lemma TrimMentions(declared: string, part: string)
    requires IsWord(part)
    ensures Contains(Upper(Trim(declared)), part) <==> Mentions(Upper(declared), part)
  {
    UpperTrimStart(declared);
    UpperTrimEnd(TrimStart(declared));
    var upper := Upper(declared);
    assert Upper(Trim(declared)) == TrimEnd(TrimStart(upper));
    ContainsMeaning(TrimEnd(TrimStart(upper)), part);
    TrimEndMentions(TrimStart(upper), part);
    ContainsMeaning(TrimStart(upper), part);
    TrimStartMentions(upper, part);
    ContainsMeaning(upper, part);
  }

  predicate Blank(s: string) {
    forall i :: 0 <= i < |s| ==> IsWhitespace(s[i])
  }

  lemma {:induction false} TrimmedStart(s: string)
    ensures TrimStart(s) == "" <==> Blank(s)
    ensures TrimStart(s) != "" ==> !IsWhitespace(TrimStart(s)[0])
  {
    hide IsWhitespace;
    if s != "" && IsWhitespace(s[0]) {
      TrimmedStart(s[1..]);
      assert forall i :: 0 < i < |s| ==> s[i] == s[1..][i - 1];
      assert Blank(s) <==> Blank(s[1..]);
    }
  }

  lemma {:induction false} TrimEndEmpty(s: string)
    ensures s != "" && !IsWhitespace(s[0]) ==> TrimEnd(s) != ""
  {
    if s != "" && IsWhitespace(s[|s| - 1]) { TrimEndEmpty(s[..|s| - 1]); }
  }

  lemma TrimmedAway(declared: string)
    ensures Upper(Trim(declared)) == "" <==> Blank(declared)
  {
    TrimmedStart(declared);
    TrimEndEmpty(TrimStart(declared));
    UpperIdempotent(Trim(declared));
  }

  /** The five rules of section 3.1 on the declared type as it is written: which words it mentions in
      any case, in order of precedence, and whether it is blank. */
  lemma AffinityRules(declared: string)
    ensures var upper := Upper(declared);
            var integer := Mentions(upper, "INT");
            var text := Mentions(upper, "CHAR") || Mentions(upper, "CLOB") || Mentions(upper, "TEXT");
            var blob := Mentions(upper, "BLOB") || Blank(declared);
            var floating := Mentions(upper, "REAL") || Mentions(upper, "FLOA") || Mentions(upper, "DOUB");
            && (FromDeclaredType(declared) == INTEGER <==> integer)
            && (FromDeclaredType(declared) == TEXT <==> !integer && text)
            && (FromDeclaredType(declared) == BLOB <==> !integer && !text && blob)
            && (FromDeclaredType(declared) == REAL <==> !integer && !text && !blob && floating)
            && (FromDeclaredType(declared) == NUMERIC <==> !integer && !text && !blob && !floating)
  {
    hide Contains, Mentions, Trim;
    TrimMentions(declared, "INT");
    TrimMentions(declared, "CHAR");
    TrimMentions(declared, "CLOB");
    TrimMentions(declared, "TEXT");
    TrimMentions(declared, "BLOB");
    TrimMentions(declared, "REAL");
    TrimMentions(declared, "FLOA");
    TrimMentions(declared, "DOUB");
    TrimmedAway(declared);
  }
}
