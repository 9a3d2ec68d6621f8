/** The lookup key of a dimension value or alias (internal/store normalize). Unicode's own tables
    are a parameter. */
module Normalize {
  import Text

  /** NFKC, lower-casing and the classes of characters, as the Unicode tables give them. */
  datatype Unicode = Unicode(nfkc: string -> string, lower: char -> char,
                             space: char -> bool, punct: char -> bool, symbol: char -> bool)

  /** The two facts about the tables that the proofs use. */
  predicate Lawful(u: Unicode) {
    u.space(' ') && u.symbol('|')
  }

  /** A joiner or diacritic that a key leaves out. */
  predicate Removed(r: char) {
    || r == '\U{200C}' || r == '\U{200D}'
    || '\U{064B}' <= r <= '\U{0652}'
    || r == '\U{0670}' || r == '\U{0640}'
  }

  function PersianFold(r: char): char {
    if r == '\U{064A}' || r == '\U{0649}' then '\U{06CC}'
    else if r == '\U{0643}' then '\U{06A9}'
    else if r == '\U{0629}' || r == '\U{06C0}' || r == '\U{06C1}' then '\U{0647}'
    else r
  }

  function FoldDigit(r: char): char {
    if '\U{0660}' <= r <= '\U{0669}' then ('0' as int + (r as int - 0x660)) as char
    else if '\U{06F0}' <= r <= '\U{06F9}' then ('0' as int + (r as int - 0x6F0)) as char
    else r
  }

  predicate Separator(u: Unicode, r: char) {
    u.space(r) || r == '-' || u.punct(r) || u.symbol(r)
  }

  function WordChar(u: Unicode): char -> bool {
    r => !Separator(u, r)
  }

  function FoldChar(u: Unicode, r: char): char {
    u.lower(FoldDigit(PersianFold(r)))
  }

  // ---------- What the loops compute ----------

  function Folded(u: Unicode, s: string): string {
    if s == "" then ""
    else (if Removed(s[0]) then "" else [FoldChar(u, s[0])]) + Folded(u, s[1..])
  }

  /** Each word after a space. */
  function Spaced(words: seq<string>): string {
    if words == [] then "" else " " + words[0] + Spaced(words[1..])
  }

  function Joined(words: seq<string>): string {
    if words == [] then "" else words[0] + Spaced(words[1..])
  }

  function Words(u: Unicode, s: string): seq<string> {
    Text.Fields(s, WordChar(u))
  }

  function Collapsed(u: Unicode, s: string): string {
    Joined(Words(u, s))
  }

  function Key(u: Unicode, s: string): string {
    Collapsed(u, Text.Trim(Folded(u, u.nfkc(s)), u.space))
  }

  function Keying(u: Unicode): string -> string {
    s => Key(u, s)
  }

  // ---------- The loops ----------

  /** What collapseSeparators still writes for `s`, given whether it is inside separators and
      whether it has written anything. */
  function Rest(u: Unicode, s: string, inSep: bool, started: bool): string {
    if s == "" then ""
    else if Separator(u, s[0]) then Rest(u, s[1..], true, started)
    else (if inSep && started then [' ', s[0]] else [s[0]]) + Rest(u, s[1..], false, true)
  }

  lemma FirstWord(u: Unicode, s: string)
    requires s != "" && !Separator(u, s[0])
    ensures var w := Text.Span(s, WordChar(u));
      && w == [s[0]] + Text.Span(s[1..], WordChar(u))
      && s[|w|..] == s[1..][|w| - 1..]
      && Words(u, s) == [w] + Words(u, s[|w|..])
  {
  }

  lemma JoinedFirst(w: string, words: seq<string>)
    ensures Joined([w] + words) == w + Spaced(words)
    ensures Spaced([w] + words) == " " + w + Spaced(words)
  {
    assert ([w] + words)[1..] == words;
  }

  lemma Regroup(a: string, b: string, c: string)
    ensures a + (b + c) == (a + b) + c
  {
  }

  /** Inside a word, the rest of it is written and then every later word after a space. */
  lemma {:induction false} RestInWord(u: Unicode, s: string)
    ensures var w := Text.Span(s, WordChar(u)); Rest(u, s, false, true) == w + Spaced(Words(u, s[|w|..]))
    decreases |s|
  {
    if s == "" || Separator(u, s[0]) {
      assert Text.Span(s, WordChar(u)) == "" && s[0..] == s;
      if s != "" {
        RestBetweenWords(u, s[1..]);
      }
    } else {
      RestInWord(u, s[1..]);
      FirstWord(u, s);
      var w := Text.Span(s, WordChar(u));
      Regroup([s[0]], w[1..], Spaced(Words(u, s[|w|..])));
    }
  }

  lemma {:induction false} RestBetweenWords(u: Unicode, s: string)
    ensures Rest(u, s, true, true) == Spaced(Words(u, s))
    decreases |s|
  {
    if s == "" {
    } else if Separator(u, s[0]) {
      RestBetweenWords(u, s[1..]);
    } else {
      RestInWord(u, s[1..]);
      FirstWord(u, s);
      var w := Text.Span(s, WordChar(u));
      JoinedFirst(w, Words(u, s[|w|..]));
      Regroup([' ', s[0]], w[1..], Spaced(Words(u, s[|w|..])));
    }
  }

  lemma {:induction false} RestAtStart(u: Unicode, s: string, inSep: bool)
    ensures Rest(u, s, inSep, false) == Joined(Words(u, s))
  {
    if s == "" {
    } else if Separator(u, s[0]) {
      RestAtStart(u, s[1..], true);
    } else {
      RestInWord(u, s[1..]);
      FirstWord(u, s);
      var w := Text.Span(s, WordChar(u));
      JoinedFirst(w, Words(u, s[|w|..]));
      Regroup([s[0]], w[1..], Spaced(Words(u, s[|w|..])));
    }
  }

  /** collapseSeparators: split on separators, then join with a space. */
  method CollapseSeparators(u: Unicode, s: string) returns (b: string)
    ensures b == Joined(Text.Fields(s, WordChar(u)))
  {
    b := "";
    var inSep := false;
    for i := 0 to |s|
      invariant b + Rest(u, s[i..], inSep, b != "") == Rest(u, s, false, false)
    {
      var r := s[i];
      assert s[i..] == [r] + s[i + 1..];
      if Separator(u, r) {
        inSep := true;
        continue;
      }
      if inSep && |b| > 0 {
        b := b + " ";
      }
      inSep := false;
      b := b + [r];
    }
    RestAtStart(u, s, false);
  }

  lemma FoldNext(u: Unicode, t: string, i: nat, b: string)
    requires i < |t|
    ensures b + Folded(u, t[i..]) == (if Removed(t[i]) then b else b + [FoldChar(u, t[i])]) + Folded(u, t[i + 1..])
  {
    assert t[i..][1..] == t[i + 1..];
    var c, rest := FoldChar(u, t[i]), Folded(u, t[i + 1..]);
    assert b + ([c] + rest) == (b + [c]) + rest && b + ("" + rest) == b + rest;
  }

  method Fold(u: Unicode, t: string) returns (b: string)
    ensures b == Folded(u, t)
  {
    b := "";
    assert t[0..] == t;
    for i := 0 to |t|
      invariant b + Folded(u, t[i..]) == Folded(u, t)
    {
      FoldNext(u, t, i, b);
      if !Removed(t[i]) {
        b := b + [FoldChar(u, t[i])];
      }
    }
  }

  method NormalizeKey(u: Unicode, s: string) returns (key: string)
    ensures key == Key(u, s)
  {
    var b := Fold(u, u.nfkc(s));
    key := CollapseSeparators(u, Text.Trim(b, u.space));
  }

  // ---------- What a key is ----------

  ghost predicate IsWord(u: Unicode, w: string) {
    w != "" && forall c :: c in w ==> !Separator(u, c)
  }

  ghost predicate AllWords(u: Unicode, words: seq<string>) {
    forall i :: 0 <= i < |words| ==> IsWord(u, words[i])
  }

  lemma WordThenSpace(u: Unicode, w: string, rest: string)
    requires Lawful(u) && IsWord(u, w) && (rest != "" ==> Separator(u, rest[0]))
    ensures Words(u, w + rest) == [w] + Words(u, rest)
    ensures Words(u, " " + w + rest) == [w] + Words(u, rest)
  {
    Text.SpanOf(w, rest, WordChar(u));
    assert (w + rest)[|w|..] == rest;
    assert (" " + w + rest)[1..] == w + rest;
  }

  lemma {:induction false} FieldsOfSpaced(u: Unicode, words: seq<string>)
    requires Lawful(u) && AllWords(u, words)
    ensures Words(u, Spaced(words)) == words
    ensures Words(u, Joined(words)) == words
  {
    if words != [] {
      assert IsWord(u, words[0]);
      FieldsOfSpaced(u, words[1..]);
      WordThenSpace(u, words[0], Spaced(words[1..]));
    }
  }

  lemma {:induction false} SpacedCharacters(u: Unicode, words: seq<string>, c: char)
    requires AllWords(u, words) && c in Spaced(words)
    ensures c == ' ' || !Separator(u, c)
  {
    assert IsWord(u, words[0]);
    if c !in words[0] && c != ' ' {
      SpacedCharacters(u, words[1..], c);
    }
  }

  /** Collapsing twice is collapsing once, and no separator but a space survives: a `|` never does. */
  lemma CollapsedIsCanonical(u: Unicode, s: string)
    requires Lawful(u)
    ensures Collapsed(u, Collapsed(u, s)) == Collapsed(u, s)
    ensures forall c :: c in Collapsed(u, s) ==> c == ' ' || !Separator(u, c)
    ensures '|' !in Collapsed(u, s)
  {
    var words := Words(u, s);
    forall i | 0 <= i < |words| ensures IsWord(u, words[i]) {
      assert words[i] in words;
    }
    FieldsOfSpaced(u, words);
    forall c | c in Joined(words) ensures c == ' ' || !Separator(u, c) {
      if c in words[0] {
        assert IsWord(u, words[0]);
      } else {
        SpacedCharacters(u, words[1..], c);
      }
    }
  }

  lemma {:induction false} LeadingSeparators(u: Unicode, s: string, t: string)
    requires forall c :: c in s ==> Separator(u, c)
    ensures Words(u, s + t) == Words(u, t)
  {
    if s == "" {
      assert s + t == t;
    } else {
      assert (s + t)[1..] == s[1..] + t;
      LeadingSeparators(u, s[1..], t);
    }
  }

  lemma {:induction false} TrailingSeparators(u: Unicode, s: string, t: string)
    requires forall c :: c in t ==> Separator(u, c)
    ensures Words(u, s + t) == Words(u, s)
    decreases |s|
  {
    if s == "" {
      LeadingSeparators(u, t, "");
      assert s + t == t && t + "" == t;
    } else if Separator(u, s[0]) {
      assert (s + t)[1..] == s[1..] + t;
      TrailingSeparators(u, s[1..], t);
    } else {
      var w := Text.Span(s, WordChar(u));
      var rest := s[|w|..];
      assert s == w + rest && s + t == w + (rest + t);
      Text.SpanOf(w, rest + t, WordChar(u));
      assert (s + t)[|w|..] == rest + t;
      TrailingSeparators(u, rest, t);
    }
  }

  lemma WordsOfKey(u: Unicode, s: string)
    requires Lawful(u)
    ensures Words(u, Key(u, s)) == Words(u, Folded(u, u.nfkc(s)))
  {
    TrimKeepsWords(u, Folded(u, u.nfkc(s)));
    var words := Words(u, Text.Trim(Folded(u, u.nfkc(s)), u.space));
    forall i | 0 <= i < |words| ensures IsWord(u, words[i]) {
      assert words[i] in words;
    }
    FieldsOfSpaced(u, words);
  }

  /** The key tells spellings apart exactly by the words between separators of their folded forms:
      trimming first changes nothing, and the key gives the words back. */
  lemma SameKeyIffSameWords(u: Unicode, s: string, t: string)
    requires Lawful(u)
    ensures Key(u, s) == Key(u, t) <==> Words(u, Folded(u, u.nfkc(s))) == Words(u, Folded(u, u.nfkc(t)))
  {
    WordsOfKey(u, s);
    WordsOfKey(u, t);
    SameWordsSameKey(u, s, t);
  }

  lemma SameWordsSameKey(u: Unicode, s: string, t: string)
    ensures Words(u, Folded(u, u.nfkc(s))) == Words(u, Folded(u, u.nfkc(t))) ==> Key(u, s) == Key(u, t)
  {
    TrimKeepsWords(u, Folded(u, u.nfkc(s)));
    TrimKeepsWords(u, Folded(u, u.nfkc(t)));
  }

  lemma TrimLeftKeepsWords(u: Unicode, s: string)
    ensures Words(u, Text.TrimLeft(s, u.space)) == Words(u, s)
  {
    var left := Text.TrimLeft(s, u.space);
    var before := s[..|s| - |left|];
    assert s == before + left;
    LeadingSeparators(u, before, left);
  }

  lemma TrimRightKeepsWords(u: Unicode, s: string)
    ensures Words(u, Text.TrimRight(s, u.space)) == Words(u, s)
  {
    var trimmed := Text.TrimRight(s, u.space);
    var after := s[|trimmed|..];
    assert s == trimmed + after;
    TrailingSeparators(u, trimmed, after);
  }

  lemma TrimKeepsWords(u: Unicode, s: string)
    ensures Words(u, Text.Trim(s, u.space)) == Words(u, s)
  {
    var left := Text.TrimLeft(s, u.space);
    TrimLeftKeepsWords(u, s);
    TrimRightKeepsWords(u, left);
  }

  // ---------- Spellings with the same key ----------

  /** ADR 0019: a zero-width joiner, a vowel mark, the superscript alef or the tatweel. */
  predicate IsMark(c: char) {
    c as int in {0x200C, 0x200D, 0x0670, 0x0640} || 0x064B <= c as int <= 0x0652
  }

  /** The letter or digit that an Arabic letter or digit is keyed as. */
  function Canonical(c: char): char {
    var r := c as int;
    if r == 0x064A || r == 0x0649 then 0x06CC as char
    else if r == 0x0643 then 0x06A9 as char
    else if r == 0x0629 || r == 0x06C0 || r == 0x06C1 then 0x0647 as char
    else if 0x0660 <= r <= 0x0669 then (r - 0x0660 + 0x30) as char
    else if 0x06F0 <= r <= 0x06F9 then (r - 0x06F0 + 0x30) as char
    else c
  }

  lemma {:induction false} FoldedInTurn(u: Unicode, s: string, t: string)
    ensures Folded(u, s + t) == Folded(u, s) + Folded(u, t)
  {
    if s == "" {
      assert s + t == t;
    } else {
      assert (s + t)[1..] == s[1..] + t;
      FoldedInTurn(u, s[1..], t);
    }
  }

  lemma FoldCharIs(u: Unicode, c: char)
    ensures Removed(c) <==> IsMark(c)
    ensures FoldChar(u, c) == u.lower(Canonical(c))
  {
  }

  /** Marks leave nothing in a key's form, and every other character its canonical one, in lower case. */
  lemma FoldedIs(u: Unicode, s: string, c: char, t: string)
    ensures Folded(u, s + [c] + t) == Folded(u, s) + (if IsMark(c) then "" else [u.lower(Canonical(c))]) + Folded(u, t)
    ensures Folded(u, s + t) == Folded(u, s) + Folded(u, t)
  {
    FoldedInTurn(u, s + [c], t);
    FoldedInTurn(u, s, [c]);
    FoldedInTurn(u, s, t);
    FoldCharIs(u, c);
    assert [c][1..] == "" && Folded(u, s) + "" == Folded(u, s);
  }

  /** Spellings that differ in one mark, or in one letter or digit of the same canonical form, have one key:
      an Arabic keyboard's yeh and kaf are a Persian one's, and digits are digits in either script. */
  lemma SpelledAlike(u: Unicode, s: string, c: char, d: char, t: string, a: string, b: string)
    requires u.nfkc(a) == s + [c] + t
    requires if IsMark(c) then u.nfkc(b) == s + t else !IsMark(d) && Canonical(c) == Canonical(d) && u.nfkc(b) == s + [d] + t
    ensures Key(u, a) == Key(u, b)
  {
    FoldedIs(u, s, c, t);
    FoldedIs(u, s, d, t);
    assert Folded(u, s) + "" == Folded(u, s);
  }

  /** Words are parted by just the spaces, hyphens, punctuation and symbols. */
  lemma WordsAre(u: Unicode, s: string, c: char, t: string)
    ensures u.space(c) || c == '-' || u.punct(c) || u.symbol(c) ==> Words(u, s + [c] + t) == Words(u, s) + Words(u, t)
    ensures s != "" && (forall r :: r in s ==> !u.space(r) && r != '-' && !u.punct(r) && !u.symbol(r)) ==> Words(u, s) == [s]
  {
    if Separator(u, c) {
      Text.FieldsApart(s, c, t, WordChar(u));
    }
    if s != "" && (forall r :: r in s ==> !Separator(u, r)) {
      Text.FieldsHold(s, WordChar(u));
    }
  }
}
