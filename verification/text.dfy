/** String functions of Go's standard library that the model needs, over sequences of code points. */
module Text {

  /** The leading run of `s` whose characters satisfy `p`. */
  function Span(s: string, p: char -> bool): (r: string)
    ensures r <= s
    ensures forall c :: c in r ==> p(c)
    ensures |r| < |s| ==> !p(s[|r|])
  {
    if s == "" || !p(s[0]) then "" else [s[0]] + Span(s[1..], p)
  }

  /** strings.FieldsFunc: the maximal runs of characters that satisfy `word`, in order. */
  function Fields(s: string, word: char -> bool): (r: seq<string>)
    ensures forall w :: w in r ==> w != "" && forall c :: c in w ==> word(c)
    decreases |s|
  {
    if s == "" then []
    else if !word(s[0]) then Fields(s[1..], word)
    else
      var w := Span(s, word);
      [w] + Fields(s[|w|..], word)
  }

  /** strings.TrimLeftFunc and strings.TrimRightFunc. */
  function TrimLeft(s: string, p: char -> bool): (r: string)
    ensures |r| <= |s| && r == s[|s| - |r|..]
    ensures r != "" ==> !p(r[0])
    ensures forall i :: 0 <= i < |s| - |r| ==> p(s[i])
  {
    if s != "" && p(s[0]) then TrimLeft(s[1..], p) else s
  }

  function TrimRight(s: string, p: char -> bool): (r: string)
    ensures r <= s
    ensures r != "" ==> !p(r[|r| - 1])
    ensures forall i :: |r| <= i < |s| ==> p(s[i])
  {
    if s != "" && p(s[|s| - 1]) then TrimRight(s[..|s| - 1], p) else s
  }

  function Trim(s: string, p: char -> bool): string {
    TrimRight(TrimLeft(s, p), p)
  }

  /** len of a Go string: the bytes of its UTF-8 form. */
  function ByteLen(s: string): nat {
    if s == "" then 0
    else (if s[0] < '\U{80}' then 1 else if s[0] < '\U{800}' then 2 else if s[0] < '\U{10000}' then 3 else 4) + ByteLen(s[1..])
  }

  /** strings.IndexByte, or the length when the character is not there. */
  function Cut(s: string, c: char): (i: nat)
    ensures i <= |s| && c !in s[..i] && (i < |s| ==> s[i] == c)
  {
    if s == "" || s[0] == c then 0 else 1 + Cut(s[1..], c)
  }

  lemma {:induction false} CutBehind(a: string, b: string, c: char)
    requires c !in a
    ensures Cut(a + b, c) == |a| + Cut(b, c)
  {
    if a == "" {
      assert a + b == b;
    } else {
      assert (a + b)[1..] == a[1..] + b;
      CutBehind(a[1..], b, c);
    }
  }

  function Digit(d: nat): char
    requires d < 10
  {
    '0' + d as char
  }

  /** strconv.Itoa of a number that is not negative. */
  function Decimal(n: nat): string {
    if n < 10 then [Digit(n)] else Decimal(n / 10) + [Digit(n % 10)]
  }

  // ---------- What trimming takes off ----------

  lemma {:induction false} TrimLeftRun(y: string, z: string, p: char -> bool)
    requires (forall c :: c in y ==> p(c)) && (z == "" || !p(z[0]))
    ensures TrimLeft(y + z, p) == z
  {
    if y == "" {
      assert y + z == z;
    } else {
      assert (y + z)[1..] == y[1..] + z;
      TrimLeftRun(y[1..], z, p);
    }
  }

  lemma {:induction false} TrimRightRun(z: string, y: string, p: char -> bool)
    requires (forall c :: c in y ==> p(c)) && (z == "" || !p(z[|z| - 1]))
    ensures TrimRight(z + y, p) == z
  {
    if y == "" {
      assert z + y == z;
    } else {
      assert (z + y)[..|z + y| - 1] == z + y[..|y| - 1];
      TrimRightRun(z, y[..|y| - 1], p);
    }
  }

  /** Trimming takes off just what surrounds a text that neither begins nor ends with it. */
  lemma TrimAround(x: string, s: string, y: string, p: char -> bool)
    requires (forall c :: c in x ==> p(c)) && (forall c :: c in y ==> p(c))
    requires s != "" && !p(s[0]) && !p(s[|s| - 1])
    ensures Trim(x + s + y, p) == s
  {
    assert x + s + y == x + (s + y);
    TrimLeftRun(x, s + y, p);
    TrimRightRun(s, y, p);
  }

  lemma {:induction false} TrimLeftIsPart(s: string, p: char -> bool, c: char)
    requires c !in s
    ensures c !in TrimLeft(s, p)
  {
    if s != "" && p(s[0]) {
      TrimLeftIsPart(s[1..], p, c);
    }
  }

  lemma {:induction false} TrimRightIsPart(s: string, p: char -> bool, c: char)
    requires c !in s
    ensures c !in TrimRight(s, p)
  {
    if s != "" && p(s[|s| - 1]) {
      TrimRightIsPart(s[..|s| - 1], p, c);
    }
  }

  /** Trimming adds no character. */
  lemma TrimmedIsPart(s: string, p: char -> bool, c: char)
    requires c !in s
    ensures c !in TrimLeft(s, p) && c !in TrimRight(s, p) && c !in Trim(s, p)
  {
    TrimLeftIsPart(s, p, c);
    TrimRightIsPart(s, p, c);
    TrimRightIsPart(TrimLeft(s, p), p, c);
  }

  // ---------- Strings are ordered by their code points ----------

  predicate Less(s: string, t: string) {
    t != "" && (s == "" || s[0] < t[0] || (s[0] == t[0] && Less(s[1..], t[1..])))
  }

  lemma {:induction false} LessAsymmetric(s: string, t: string)
    requires Less(s, t)
    ensures !Less(t, s)
  {
    if s != "" && s[0] == t[0] {
      LessAsymmetric(s[1..], t[1..]);
    }
  }

  lemma {:induction false} LessTotal(s: string, t: string)
    ensures Less(s, t) || s == t || Less(t, s)
  {
    if s != "" && t != "" && s[0] == t[0] {
      LessTotal(s[1..], t[1..]);
      assert s == [s[0]] + s[1..] && t == [t[0]] + t[1..];
    }
  }

  lemma {:induction false} LessTransitive(s: string, t: string, u: string)
    requires Less(s, t) && Less(t, u)
    ensures Less(s, u)
  {
    if s != "" && s[0] == t[0] == u[0] {
      LessTransitive(s[1..], t[1..], u[1..]);
    }
  }

  lemma {:induction false} LessFrom(s: string, t: string, i: nat)
    requires i <= |s| && i < |t| && s[..i] == t[..i] && (i == |s| || s[i] < t[i])
    ensures Less(s, t)
  {
    if i > 0 {
      assert s[0] == s[..i][0] == t[..i][0] == t[0];
      assert s[1..][..i - 1] == s[..i][1..] && t[1..][..i - 1] == t[..i][1..];
      LessFrom(s[1..], t[1..], i - 1);
    }
  }

  lemma {:induction false} LessWhere(s: string, t: string) returns (i: nat)
    requires Less(s, t)
    ensures i <= |s| && i < |t| && s[..i] == t[..i] && (i == |s| || s[i] < t[i])
  {
    if s == "" || s[0] < t[0] {
      i := 0;
    } else {
      i := LessWhere(s[1..], t[1..]);
      i := i + 1;
      assert s[..i] == [s[0]] + s[1..][..i - 1] && t[..i] == [t[0]] + t[1..][..i - 1];
    }
  }

  /** One string is before another exactly if it ends, or has the lesser character, where they first differ. */
  lemma LessIs(s: string, t: string)
    ensures Less(s, t) <==> exists i: nat :: i <= |s| && i < |t| && s[..i] == t[..i] && (i == |s| || s[i] < t[i])
  {
    if Less(s, t) {
      var i := LessWhere(s, t);
    }
    forall i: nat | i <= |s| && i < |t| && s[..i] == t[..i] && (i == |s| || s[i] < t[i]) ensures Less(s, t) {
      LessFrom(s, t, i);
    }
  }

  // ---------- Fields, digits and bytes ----------

  lemma {:induction false} SpanOf(w: string, rest: string, p: char -> bool)
    requires (forall c :: c in w ==> p(c)) && (rest != "" ==> !p(rest[0]))
    ensures Span(w + rest, p) == w
  {
    if w == "" {
      assert w + rest == rest;
    } else {
      assert (w + rest)[1..] == w[1..] + rest;
      SpanOf(w[1..], rest, p);
    }
  }

  /** A character that is in no word parts the words before it from the words behind it. */
  lemma {:induction false} FieldsApart(s: string, c: char, t: string, word: char -> bool)
    requires !word(c)
    ensures Fields(s + [c] + t, word) == Fields(s, word) + Fields(t, word)
    decreases |s|
  {
    if s == "" {
      assert (s + [c] + t)[1..] == t;
    } else if !word(s[0]) {
      assert (s + [c] + t)[1..] == s[1..] + [c] + t;
      FieldsApart(s[1..], c, t, word);
    } else {
      var w := Span(s, word);
      var rest := s[|w|..];
      assert s + [c] + t == w + (rest + [c] + t);
      SpanOf(w, rest + [c] + t, word);
      assert (s + [c] + t)[|w|..] == rest + [c] + t;
      FieldsApart(rest, c, t, word);
    }
  }

  /** Characters that are all in words are one word. */
  lemma FieldsHold(w: string, word: char -> bool)
    requires w != "" && forall c :: c in w ==> word(c)
    ensures Fields(w, word) == [w]
  {
    SpanOf(w, "", word);
    assert w + "" == w && w[|w|..] == "";
  }

  /** Decimal digits, most significant first. */
  lemma DecimalIs(n: nat, d: nat)
    requires d < 10
    ensures Decimal(d) == [('0' as int + d) as char]
    ensures n > 0 ==> Decimal(10 * n + d) == Decimal(n) + Decimal(d)
  {
    assert (10 * n + d) / 10 == n && (10 * n + d) % 10 == d;
  }

  /** UTF-8 takes one byte below U+0080, two below U+0800, three below U+10000 and four above. */
  lemma {:induction false} ByteLenIs(s: string, c: char)
    ensures ByteLen("") == 0
    ensures ByteLen(s + [c]) == ByteLen(s) +
      if (c as int) < 0x80 then 1 else if (c as int) < 0x800 then 2 else if (c as int) < 0x1_0000 then 3 else 4
  {
    if s == "" {
      assert s + [c] == [c] && [c][1..] == "";
    } else {
      assert (s + [c])[1..] == s[1..] + [c];
      ByteLenIs(s[1..], c);
    }
  }
}
