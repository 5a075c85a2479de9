/** Gram postings: every window of one, two or three code units of a text, as an ASCII token. */
module SearchGrams {
  import opened Records

  type Token = string

  function HexDigit(d: nat): char
    requires d < 16
  {
    "0123456789abcdef"[d]
  }

  function Hex4(c: CodeUnit): (hex: string)
    ensures |hex| == 4
  {
    [HexDigit(c / 16 / 16 / 16), HexDigit(c / 16 / 16 % 16), HexDigit(c / 16 % 16), HexDigit(c % 16)]
  }

  function HexAll(t: Text): string {
    if t == [] then "" else HexAll(t[..|t| - 1]) + Hex4(t[|t| - 1])
  }

  function Encode(t: Text): Token {
    "x" + HexAll(t)
  }

  function Window(text: Text, i: int, length: nat): Text
    requires 0 <= i <= |text| - length
  {
    text[i..i + length]
  }

  function Windows(text: Text, length: nat): set<Text> {
    set i | 0 <= i <= |text| - length :: Window(text, i, length)
  }

  /** The postings of `text` for one gram size. */
  function GramSet(text: Text, length: nat): set<Token> {
    set w <- Windows(text, length) :: Encode(w)
  }

  function TermSize(term: Term): nat {
    if |term| < 3 then |term| else 3
  }

  lemma HexDigitInjective(d: nat, e: nat)
    requires d < 16 && e < 16 && HexDigit(d) == HexDigit(e)
    ensures d == e
  {
  }

  lemma Hex4Injective(a: CodeUnit, b: CodeUnit)
    requires Hex4(a) == Hex4(b)
    ensures a == b
  {
    assert Hex4(a)[0] == Hex4(b)[0] && Hex4(a)[1] == Hex4(b)[1];
    assert Hex4(a)[2] == Hex4(b)[2] && Hex4(a)[3] == Hex4(b)[3];
    HexDigitInjective(a / 16 / 16 / 16, b / 16 / 16 / 16);
    HexDigitInjective(a / 16 / 16 % 16, b / 16 / 16 % 16);
    HexDigitInjective(a / 16 % 16, b / 16 % 16);
    HexDigitInjective(a % 16, b % 16);
  }

  lemma {:induction false} HexAllLength(t: Text)
    ensures |HexAll(t)| == 4 * |t|
  {
    if t != [] {
      HexAllLength(t[..|t| - 1]);
    }
  }

  /** Distinct windows never share a token. */
  lemma {:induction false} HexAllInjective(a: Text, b: Text)
    requires HexAll(a) == HexAll(b)
    ensures a == b
  {
    HexAllLength(a);
    HexAllLength(b);
    if a != [] {
      var n := |a| - 1;
      HexAllLength(a[..n]);
      HexAllLength(b[..n]);
      assert HexAll(a)[..4 * n] == HexAll(a[..n]) && HexAll(a)[4 * n..] == Hex4(a[n]);
      assert HexAll(b)[..4 * n] == HexAll(b[..n]) && HexAll(b)[4 * n..] == Hex4(b[n]);
      HexAllInjective(a[..n], b[..n]);
      Hex4Injective(a[n], b[n]);
      assert a == a[..n] + [a[n]] && b == b[..n] + [b[n]];
    }
  }

  /** Searching grams never misses a text that holds the term. */
  lemma GramsNeverMiss(haystack: Text, term: Text, size: nat)
    requires size <= |term| && Includes(haystack, term)
    ensures GramSet(term, size) <= GramSet(haystack, size)
  {
    var at :| OccursAt(haystack, term, at);
    forall w | w in Windows(term, size) ensures w in Windows(haystack, size) {
      var i :| 0 <= i <= |term| - size && Window(term, i, size) == w;
      forall k | 0 <= k < size ensures w[k] == haystack[at + i + k] {
        assert w[k] == term[i + k] == haystack[at..at + |term|][i + k];
      }
      assert Window(haystack, at + i, size) == w;
    }
  }

  /** For a term no longer than a gram the postings are exact, not just a filter. */
  lemma ShortTermGramsAreExact(haystack: Text, term: Text)
    ensures GramSet(term, |term|) <= GramSet(haystack, |term|) <==> Includes(haystack, term)
  {
    if Includes(haystack, term) {
      GramsNeverMiss(haystack, term, |term|);
    }
    if GramSet(term, |term|) <= GramSet(haystack, |term|) {
      assert Window(term, 0, |term|) == term;
      assert term in Windows(term, |term|);
      assert Encode(term) in GramSet(haystack, |term|);
      var w :| w in Windows(haystack, |term|) && Encode(w) == Encode(term);
      assert HexAll(w) == Encode(w)[1..] == HexAll(term);
      HexAllInjective(w, term);
      var i :| 0 <= i <= |haystack| - |term| && Window(haystack, i, |term|) == w;
      assert OccursAt(haystack, term, i);
    }
  }

  /** The distinct grams of the windows before `i`. */
  ghost predicate Collected(text: Text, length: nat, i: nat, grams: seq<Token>) {
    && (forall g <- grams :: g in GramSet(text, length))
    && (forall k :: 0 <= k < i && k <= |text| - length ==> Encode(Window(text, k, length)) in grams)
    && forall a, b :: 0 <= a < b < |grams| ==> grams[a] != grams[b]
  }

  lemma CollectNext(text: Text, length: nat, i: nat, grams: seq<Token>)
    requires i + length <= |text| && Collected(text, length, i, grams)
    ensures var token := Encode(Window(text, i, length));
            Collected(text, length, i + 1, if token in grams then grams else grams + [token])
  {
    assert Window(text, i, length) in Windows(text, length);
  }

  /** The inner loop: one window as a token. */
  method EncodeWindow(text: Text, i: nat, length: nat) returns (token: Token)
    requires i + length <= |text|
    ensures token == Encode(Window(text, i, length))
  {
    var window := Window(text, i, length);
    var hex := "";
    for offset := 0 to length
      invariant hex == HexAll(window[..offset])
    {
      assert window[..offset + 1][..offset] == window[..offset];
      hex := hex + Hex4(text[i + offset]);
    }
    assert window[..length] == window;
    token := "x" + hex;
  }

  /** `messageSearchGrams`: nested loops push one token per window, repeats dropped. */
  method MessageSearchGrams(text: Text, length: nat) returns (grams: seq<Token>)
    ensures forall g :: g in grams <==> g in GramSet(text, length)
    ensures forall i, j :: 0 <= i < j < |grams| ==> grams[i] != grams[j]
  {
    grams := [];
    var i := 0;
    while i + length <= |text|
      invariant 0 <= i && (i == 0 || i <= |text| - length + 1)
      invariant Collected(text, length, i, grams)
      decreases |text| - i
    {
      var token := EncodeWindow(text, i, length);
      CollectNext(text, length, i, grams);
      if token !in grams {
        grams := grams + [token];
      }
      i := i + 1;
    }
  }
}
