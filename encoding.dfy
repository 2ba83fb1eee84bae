/**
 * The byte, text and number encodings the device layer relies on: Python's
 * `str.encode` (UTF-8) and `str.encode('ascii')`, `str(n)` and `int(text)`
 * for decimal numbers, `hex(n)` and `bin(n)`, `bytes.hex().upper()`, and the
 * slicing idioms `s[:n]` and `[s[i:i+n] for i in range(0, len(s), n)]`.
 */
module Encoding {
  import opened Wrappers

  newtype byte = x: int | 0 <= x < 256

  // ---------------------------------------------------------------------------
  // Sequences
  // ---------------------------------------------------------------------------

  function Flatten<T>(ss: seq<seq<T>>): seq<T>
  {
    if ss == [] then [] else ss[0] + Flatten(ss[1..])
  }

  lemma {:induction false} FlattenAppend<T>(ss: seq<seq<T>>, s: seq<T>)
    ensures Flatten(ss + [s]) == Flatten(ss) + s
  {
    if ss == [] {
      assert ss + [s] == [s];
    } else {
      assert (ss + [s])[1..] == ss[1..] + [s];
      FlattenAppend(ss[1..], s);
    }
  }

  /** Python's `s[:n]` for a non-negative `n`. */
  function Take<T>(s: seq<T>, n: nat): seq<T>
  {
    s[..Min(n, |s|)]
  }

  /**
   * The slices `s[i:i+n]` for `i` in `range(0, len(s), n)`, defined by
   * recursion on the remaining suffix; ChunkAt relates it to the slice form.
   */
  function Chunks<T>(s: seq<T>, n: nat): seq<seq<T>>
    requires n > 0
    decreases |s|
  {
    if s == [] then []
    else if |s| <= n then [s]
    else [s[..n]] + Chunks(s[n..], n)
  }

  /** Putting the chunks back together gives the original sequence. */
  lemma {:induction false} ChunksFlatten<T>(s: seq<T>, n: nat)
    requires n > 0
    ensures Flatten(Chunks(s, n)) == s
    decreases |s|
  {
    if s != [] && |s| > n {
      ChunksFlatten(s[n..], n);
      assert Chunks(s, n)[1..] == Chunks(s[n..], n);
      assert s == s[..n] + s[n..];
    }
  }

  /**
   * There are ceil(|s|/n) chunks (no chunk for an empty sequence); each holds
   * between 1 and n elements and all but the last hold exactly n.
   */
  lemma ChunksSizes<T>(s: seq<T>, n: nat)
    requires n > 0
    ensures s == [] <==> |Chunks(s, n)| == 0
    ensures s != [] ==> (|Chunks(s, n)| - 1) * n < |s| <= |Chunks(s, n)| * n
    ensures forall k :: 0 <= k < |Chunks(s, n)| ==> 0 < |Chunks(s, n)[k]| <= n
    ensures forall k :: 0 <= k < |Chunks(s, n)| - 1 ==> |Chunks(s, n)[k]| == n
  {
    ChunksCount(s, n);
    ChunkLengths(s, n);
  }

  lemma {:induction false} ChunksCount<T>(s: seq<T>, n: nat)
    requires n > 0
    ensures s == [] <==> |Chunks(s, n)| == 0
    ensures s != [] ==> (|Chunks(s, n)| - 1) * n < |s| <= |Chunks(s, n)| * n
    decreases |s|
  {
    if s != [] && |s| > n {
      ChunksCount(s[n..], n);
      var m := |Chunks(s[n..], n)|;
      assert |Chunks(s, n)| == m + 1;
      assert (m + 1) * n == m * n + n;
      assert (m - 1) * n == m * n - n;
    }
  }

  lemma {:induction false} ChunkLengths<T>(s: seq<T>, n: nat)
    requires n > 0
    ensures forall k :: 0 <= k < |Chunks(s, n)| ==> 0 < |Chunks(s, n)[k]| <= n
    ensures forall k :: 0 <= k < |Chunks(s, n)| - 1 ==> |Chunks(s, n)[k]| == n
    decreases |s|
  {
    if s != [] && |s| > n {
      ChunkLengths(s[n..], n);
      var rest := Chunks(s[n..], n);
      assert Chunks(s, n) == [s[..n]] + rest;
      forall k | 0 < k < |Chunks(s, n)|
        ensures Chunks(s, n)[k] == rest[k - 1]
      {
      }
    }
  }

  lemma MulStep(k: nat, n: nat)
    requires k > 0
    ensures k * n == (k - 1) * n + n
  {
  }

  lemma SliceOfSuffix<T>(s: seq<T>, n: nat, i: nat, j: nat)
    requires n <= |s| && i <= j <= |s| - n
    ensures s[n..][i..j] == s[n + i .. n + j]
  {
  }

  /** The k-th chunk is the slice `s[k*n : k*n+n]` of the source's comprehension. */
  lemma {:induction false} ChunkAt<T>(s: seq<T>, n: nat, k: nat)
    requires n > 0
    requires k < |Chunks(s, n)|
    ensures k * n < |s|
    ensures Chunks(s, n)[k] == s[k * n .. Min(k * n + n, |s|)]
    decreases k
  {
    if k > 0 {
      assert |s| > n;
      var t := s[n..];
      assert Chunks(s, n)[k] == Chunks(t, n)[k - 1];
      ChunkAt(t, n, k - 1);
      var j := (k - 1) * n;
      MulStep(k, n);
      SliceOfSuffix(s, n, j, Min(j + n, |t|));
    }
  }

  /** Python's `s.partition(sep)`: the text before the first `sep`, the separator found (or ""), and the rest. */
  function Partition(s: string, sep: char): (r: (string, string, string))
    ensures sep !in r.0
    ensures r.1 == [] <==> sep !in s
    ensures r.1 != [] ==> r.1 == [sep]
    ensures s == r.0 + r.1 + r.2
    ensures r.1 == [] ==> r.2 == []
  {
    if s == [] then ([], [], [])
    else if s[0] == sep then ([], [sep], s[1..])
    else
      var (a, b, c) := Partition(s[1..], sep);
      assert s == [s[0]] + s[1..];
      ([s[0]] + a, b, c)
  }

  /** Partitioning `a + sep + b` at the separator's first occurrence gives back `a` and `b`. */
  lemma PartitionAt(a: string, sep: char, b: string)
    requires sep !in a
    ensures Partition(a + [sep] + b, sep) == (a, [sep], b)
  {
    assert (a + [sep] + b)[..|a|] == a;
    PrefixBeforeSeparator(a + [sep] + b, sep, a);
    assert (a + [sep] + b)[|a| + 1..] == b;
  }

  lemma {:induction false} PrefixBeforeSeparator(s: string, sep: char, a: string)
    requires |s| > |a| && s[..|a|] == a && sep !in a && s[|a|] == sep
    ensures Partition(s, sep) == (a, [sep], s[|a| + 1..])
    decreases |a|
  {
    if a != [] {
      assert s[0] == a[0] && s[0] != sep;
      assert s[1..][..|a| - 1] == a[1..];
      PrefixBeforeSeparator(s[1..], sep, a[1..]);
      assert s[1..][|a[1..]| + 1..] == s[|a| + 1..];
      assert [s[0]] + a[1..] == a;
    }
  }

  lemma {:induction false} PartitionNone(a: string, sep: char)
    requires sep !in a
    ensures Partition(a, sep) == (a, [], [])
  {
    if a != [] {
      PartitionNone(a[1..], sep);
      assert [a[0]] + a[1..] == a;
    }
  }

  // ---------------------------------------------------------------------------
  // Text to bytes
  // ---------------------------------------------------------------------------

  predicate IsAscii(s: string)
  {
    forall i :: 0 <= i < |s| ==> s[i] as int < 128
  }

  /** The UTF-8 encoding of one Unicode scalar value. */
  function Utf8Char(c: char): (r: seq<byte>)
    ensures |r| == 1 <==> c as int < 0x80
    ensures 1 <= |r| <= 4
  {
    var n := c as int;
    if n < 0x80 then [n as byte]
    else if n < 0x800 then [(0xC0 + n / 0x40) as byte, (0x80 + n % 0x40) as byte]
    else if n < 0x1_0000 then
      [(0xE0 + n / 0x1000) as byte, (0x80 + (n / 0x40) % 0x40) as byte, (0x80 + n % 0x40) as byte]
    else
      [(0xF0 + n / 0x4_0000) as byte, (0x80 + (n / 0x1000) % 0x40) as byte,
       (0x80 + (n / 0x40) % 0x40) as byte, (0x80 + n % 0x40) as byte]
  }

  /** Python's `s.encode()`: UTF-8, which never fails on a `str`. */
  function Utf8(s: string): seq<byte>
  {
    if s == [] then [] else Utf8Char(s[0]) + Utf8(s[1..])
  }

  /** Python's `s.encode('ascii')`, which raises on any character above 127. */
  function AsciiEncode(s: string): (r: Option<seq<byte>>)
    ensures r.Some? <==> IsAscii(s)
    ensures r.Some? ==> |r.value| == |s| && forall i :: 0 <= i < |s| ==> r.value[i] as int == s[i] as int
  {
    if IsAscii(s) then Some(seq(|s|, i requires 0 <= i < |s| => s[i] as int as byte)) else None
  }

  lemma {:induction false} Utf8Concat(a: string, b: string)
    ensures Utf8(a + b) == Utf8(a) + Utf8(b)
    decreases |a|
  {
    if a != [] {
      assert (a + b)[0] == a[0];
      assert (a + b)[1..] == a[1..] + b;
      Utf8Concat(a[1..], b);
    } else {
      assert a + b == b;
    }
  }

  /**
   * A string's UTF-8 encoding is as long as the string exactly when every
   * character is ASCII; otherwise it is strictly longer.
   */
  lemma {:induction false} Utf8Length(s: string)
    ensures |Utf8(s)| >= |s|
    ensures |Utf8(s)| == |s| <==> IsAscii(s)
    decreases |s|
  {
    if s != [] {
      Utf8Length(s[1..]);
      assert IsAscii(s) <==> s[0] as int < 128 && IsAscii(s[1..]) by {
        if s[0] as int < 128 && IsAscii(s[1..]) {
          forall i | 0 <= i < |s| ensures s[i] as int < 128 {
            if i > 0 { assert s[i] == s[1..][i - 1]; }
          }
        }
        if IsAscii(s) {
          forall i | 0 <= i < |s[1..]| ensures s[1..][i] as int < 128 {
            assert s[1..][i] == s[i + 1];
          }
        }
      }
    }
  }

  /** A concatenation is ASCII exactly when both parts are. */
  lemma AsciiConcat(a: string, b: string)
    ensures IsAscii(a + b) <==> IsAscii(a) && IsAscii(b)
  {
    if IsAscii(a + b) {
      forall i | 0 <= i < |a| ensures a[i] as int < 128 { assert a[i] == (a + b)[i]; }
      forall i | 0 <= i < |b| ensures b[i] as int < 128 { assert b[i] == (a + b)[|a| + i]; }
    }
  }

  /** Where the ASCII encoding succeeds it agrees with the UTF-8 encoding. */
  lemma {:induction false} AsciiIsUtf8(s: string)
    requires IsAscii(s)
    ensures AsciiEncode(s) == Some(Utf8(s))
    decreases |s|
  {
    if s != [] {
      assert IsAscii(s[1..]) by {
        forall i | 0 <= i < |s[1..]| ensures s[1..][i] as int < 128 {
          assert s[1..][i] == s[i + 1];
        }
      }
      AsciiIsUtf8(s[1..]);
      var e := AsciiEncode(s).value;
      assert e == [s[0] as int as byte] + AsciiEncode(s[1..]).value;
    }
  }

  // ---------------------------------------------------------------------------
  // Numbers as digit strings
  // ---------------------------------------------------------------------------

  /** The bases the source prints numbers in. */
  predicate IsBase(base: nat)
  {
    base == 2 || base == 10 || base == 16
  }

  /** The digits of `n` in `base`, most significant first, with no leading zero. */
  function Digits(n: nat, base: nat): seq<nat>
    requires IsBase(base)
    decreases n
  {
    if n < base then [n] else Digits(n / base, base) + [n % base]
  }

  function FromDigits(ds: seq<nat>, base: nat): nat
    decreases |ds|
  {
    if ds == [] then 0 else FromDigits(ds[..|ds| - 1], base) * base + ds[|ds| - 1]
  }

  /** Euclidean division by the base splits `n` into a smaller quotient and a digit. */
  lemma DivModBase(n: nat, base: nat)
    requires IsBase(base) && n >= base
    ensures n / base * base + n % base == n && n % base < base
    ensures 1 <= n / base < n
  {
  }

  /** Every digit of `n` is below the base, and only 0 starts with 0. */
  lemma {:induction false} DigitsBounded(n: nat, base: nat)
    requires IsBase(base)
    ensures |Digits(n, base)| >= 1
    ensures forall i :: 0 <= i < |Digits(n, base)| ==> Digits(n, base)[i] < base
    ensures Digits(n, base)[0] == 0 ==> n == 0
    decreases n
  {
    if n >= base {
      DivModBase(n, base);
      DigitsBounded(n / base, base);
      var hs := Digits(n / base, base);
      var ds := hs + [n % base];
      assert Digits(n, base) == ds;
      assert forall i :: 0 <= i < |hs| ==> ds[i] == hs[i];
    }
  }

  /** Reading back the digits of `n` gives `n`; every digit is below the base, and only 0 starts with 0. */
  lemma {:induction false} DigitsRoundTrip(n: nat, base: nat)
    requires IsBase(base)
    ensures FromDigits(Digits(n, base), base) == n
    ensures |Digits(n, base)| >= 1
    ensures forall i :: 0 <= i < |Digits(n, base)| ==> Digits(n, base)[i] < base
    ensures Digits(n, base)[0] == 0 ==> n == 0
    decreases n
  {
    DigitsBounded(n, base);
    if n >= base {
      DivModBase(n, base);
      DigitsRoundTrip(n / base, base);
      var ds := Digits(n / base, base) + [n % base];
      assert Digits(n, base) == ds;
      assert ds[..|ds| - 1] == Digits(n / base, base);
      assert FromDigits(ds, base) == FromDigits(Digits(n / base, base), base) * base + n % base;
    }
  }

  /** Each digit spelled with the character of that index in `alphabet`. */
  function Spell(ds: seq<nat>, alphabet: string): (r: string)
    requires forall i :: 0 <= i < |ds| ==> ds[i] < |alphabet|
    ensures |r| == |ds|
  {
    seq(|ds|, i requires 0 <= i < |ds| => alphabet[ds[i]])
  }

  function IndexOf(c: char, alphabet: string): (r: Option<nat>)
    ensures r.Some? ==> r.value < |alphabet| && alphabet[r.value] == c
  {
    if alphabet == [] then None
    else if alphabet[0] == c then Some(0)
    else match IndexOf(c, alphabet[1..])
      case None => None
      case Some(i) => Some(i + 1)
  }

  lemma {:induction false} IndexOfFinds(alphabet: string, d: nat)
    requires d < |alphabet|
    requires forall i, j :: 0 <= i < j < |alphabet| ==> alphabet[i] != alphabet[j]
    ensures IndexOf(alphabet[d], alphabet) == Some(d)
    decreases |alphabet|
  {
    if d > 0 {
      assert alphabet[d] == alphabet[1..][d - 1];
      IndexOfFinds(alphabet[1..], d - 1);
    }
  }

  /** The inverse of Spell: None when some character is not in `alphabet`. */
  function Unspell(text: string, alphabet: string): Option<seq<nat>>
  {
    if text == [] then Some([])
    else match (IndexOf(text[0], alphabet), Unspell(text[1..], alphabet))
      case (Some(d), Some(ds)) => Some([d] + ds)
      case _ => None
  }

  lemma {:induction false} UnspellSpell(ds: seq<nat>, alphabet: string)
    requires forall i :: 0 <= i < |ds| ==> ds[i] < |alphabet|
    requires forall i, j :: 0 <= i < j < |alphabet| ==> alphabet[i] != alphabet[j]
    ensures Unspell(Spell(ds, alphabet), alphabet) == Some(ds)
    decreases |ds|
  {
    if ds != [] {
      var t := Spell(ds, alphabet);
      assert t[1..] == Spell(ds[1..], alphabet);
      IndexOfFinds(alphabet, ds[0]);
      UnspellSpell(ds[1..], alphabet);
      assert ds == [ds[0]] + ds[1..];
    }
  }

  const DecimalAlphabet: string := "0123456789"
  const LowerHexAlphabet: string := "0123456789abcdef"
  const BinaryAlphabet: string := "01"

  lemma AlphabetsDistinct()
    ensures forall i, j :: 0 <= i < j < |DecimalAlphabet| ==> DecimalAlphabet[i] != DecimalAlphabet[j]
    ensures forall i, j :: 0 <= i < j < |LowerHexAlphabet| ==> LowerHexAlphabet[i] != LowerHexAlphabet[j]
    ensures forall i, j :: 0 <= i < j < |BinaryAlphabet| ==> BinaryAlphabet[i] != BinaryAlphabet[j]
  {
  }

  /** The digit string of `n` in `base`, spelled with `alphabet`. */
  function Numeral(n: nat, base: nat, alphabet: string): (r: string)
    requires IsBase(base) && base <= |alphabet|
    ensures |r| >= 1
  {
    DigitsRoundTrip(n, base);
    Spell(Digits(n, base), alphabet)
  }

  /** The value of a digit string: None when it is empty or holds a non-digit. */
  function ParseNumeral(text: string, base: nat, alphabet: string): Option<nat>
  {
    if text == [] then None
    else match Unspell(text, alphabet)
      case Some(ds) => Some(FromDigits(ds, base))
      case None => None
  }

  lemma NumeralRoundTrip(n: nat, base: nat, alphabet: string)
    requires IsBase(base) && base <= |alphabet|
    requires forall i, j :: 0 <= i < j < |alphabet| ==> alphabet[i] != alphabet[j]
    ensures ParseNumeral(Numeral(n, base, alphabet), base, alphabet) == Some(n)
  {
    DigitsRoundTrip(n, base);
    UnspellSpell(Digits(n, base), alphabet);
  }

  /** Python's `str(n)` for a non-negative integer. */
  function Decimal(n: nat): string
  {
    Numeral(n, 10, DecimalAlphabet)
  }

  /** `str(n)` is made of ASCII digits. */
  lemma DecimalAscii(n: nat)
    ensures IsAscii(Decimal(n))
  {
    DigitsRoundTrip(n, 10);
    var ds := Digits(n, 10);
    forall i | 0 <= i < |Decimal(n)| ensures Decimal(n)[i] as int < 128 {
      assert Decimal(n)[i] == DecimalAlphabet[ds[i]];
    }
  }

  /** Python's `hex(n)`: an optional minus sign, `0x`, then lower-case hexadecimal digits. */
  function PyHex(n: int): string
  {
    (if n < 0 then "-" else "") + "0x" + Numeral(if n < 0 then -n else n, 16, LowerHexAlphabet)
  }

  /** Python's `bin(n)`: an optional minus sign, `0b`, then binary digits. */
  function PyBin(n: int): string
  {
    (if n < 0 then "-" else "") + "0b" + Numeral(if n < 0 then -n else n, 2, BinaryAlphabet)
  }

  /** Python's `int(text, 0)` restricted to the form `hex`/`bin` produce: `[-]` prefix digits. */
  function ParsePrefixed(text: string, prefix: string, base: nat, alphabet: string): Option<int>
  {
    if |text| >= 1 && text[0] == '-' then
      if |text| >= |prefix| + 1 && text[1..|prefix| + 1] == prefix then
        match ParseNumeral(text[|prefix| + 1..], base, alphabet)
        case Some(v) => if v == 0 then None else Some(-(v as int))
        case None => None
      else None
    else if |text| >= |prefix| && text[..|prefix|] == prefix then
      match ParseNumeral(text[|prefix|..], base, alphabet)
      case Some(v) => Some(v)
      case None => None
    else None
  }

  /** `hex` loses nothing: its text reads back as the same integer. */
  lemma PyHexRoundTrip(n: int)
    ensures ParsePrefixed(PyHex(n), "0x", 16, LowerHexAlphabet) == Some(n)
  {
    AlphabetsDistinct();
    var m := if n < 0 then -n else n;
    NumeralRoundTrip(m, 16, LowerHexAlphabet);
    var t := PyHex(n);
    if n < 0 {
      assert t[1..3] == "0x";
      assert t[3..] == Numeral(m, 16, LowerHexAlphabet);
    } else {
      assert t[..2] == "0x";
      assert t[2..] == Numeral(m, 16, LowerHexAlphabet);
      assert t[0] == '0';
    }
  }

  /** `bin` loses nothing: its text reads back as the same integer. */
  lemma PyBinRoundTrip(n: int)
    ensures ParsePrefixed(PyBin(n), "0b", 2, BinaryAlphabet) == Some(n)
  {
    AlphabetsDistinct();
    var m := if n < 0 then -n else n;
    NumeralRoundTrip(m, 2, BinaryAlphabet);
    var t := PyBin(n);
    if n < 0 {
      assert t[1..3] == "0b";
      assert t[3..] == Numeral(m, 2, BinaryAlphabet);
    } else {
      assert t[..2] == "0b";
      assert t[2..] == Numeral(m, 2, BinaryAlphabet);
      assert t[0] == '0';
    }
  }

  /**
   * The characters Python counts as white space (`str.isspace`), which
   * `int()` strips from both ends: the ASCII controls 9-13 and 28-31, the
   * space, NEL, NO-BREAK SPACE, and the Unicode space and line separators.
   */
  predicate IsSpace(c: char)
  {
    || '\t' <= c <= '\r' || '\U{1C}' <= c <= ' '
    || c == '\U{85}' || c == '\U{A0}' || c == '\U{1680}' || '\U{2000}' <= c <= '\U{200A}'
    || c == '\U{2028}' || c == '\U{2029}' || c == '\U{202F}' || c == '\U{205F}' || c == '\U{3000}'
  }

  function TrimStart(s: string): (r: string)
    ensures |r| <= |s|
  {
    if s != [] && IsSpace(s[0]) then TrimStart(s[1..]) else s
  }

  function TrimEnd(s: string): (r: string)
    ensures |r| <= |s|
  {
    if s != [] && IsSpace(s[|s| - 1]) then TrimEnd(s[..|s| - 1]) else s
  }

  /**
   * Python's `int(text)` on a decimal literal: surrounding white space, an
   * optional sign, then one or more ASCII digits; anything else raises.
   */
  function ParseInt(text: string): Option<int>
  {
    var t := TrimEnd(TrimStart(text));
    if |t| >= 1 && (t[0] == '-' || t[0] == '+') then
      match ParseNumeral(t[1..], 10, DecimalAlphabet)
      case Some(v) => Some(if t[0] == '-' then -(v as int) else v)
      case None => None
    else
      ParseNumeral(t, 10, DecimalAlphabet)
  }

  lemma DigitCharsNotSpace()
    ensures forall d :: 0 <= d < 10 ==> !IsSpace(DecimalAlphabet[d]) && DecimalAlphabet[d] != '-' && DecimalAlphabet[d] != '+'
  {
  }

  /** `int(str(n))` gives back `n`. */
  lemma ParseIntDecimal(n: nat)
    ensures ParseInt(Decimal(n)) == Some(n)
  {
    AlphabetsDistinct();
    NumeralRoundTrip(n, 10, DecimalAlphabet);
    DigitsRoundTrip(n, 10);
    DigitCharsNotSpace();
    var ds := Digits(n, 10);
    var t := Decimal(n);
    assert t[0] == DecimalAlphabet[ds[0]];
    assert t[|t| - 1] == DecimalAlphabet[ds[|ds| - 1]];
    assert TrimStart(t) == t;
    assert TrimEnd(t) == t;
  }

  // ---------------------------------------------------------------------------
  // bytes.hex().upper()
  // ---------------------------------------------------------------------------

  /** The upper-case hexadecimal digit for a value below 16. */
  function HexDigit(d: nat): (c: char)
    requires d < 16
    ensures IsUpperHexDigit(c)
  {
    if d < 10 then ('0' as int + d) as char else ('A' as int + d - 10) as char
  }

  predicate IsUpperHexDigit(c: char)
  {
    '0' <= c <= '9' || 'A' <= c <= 'F'
  }

  /** The value of an upper-case hexadecimal digit, None for any other character. */
  function HexValue(c: char): (r: Option<nat>)
    ensures r.Some? <==> IsUpperHexDigit(c)
    ensures r.Some? ==> r.value < 16 && HexDigit(r.value) == c
  {
    if '0' <= c <= '9' then Some(c as int - '0' as int)
    else if 'A' <= c <= 'F' then Some(c as int - 'A' as int + 10)
    else None
  }

  lemma HexValueOfDigit(d: nat)
    requires d < 16
    ensures HexValue(HexDigit(d)) == Some(d)
  {
  }

  /** Python's `b.hex().upper()`: two upper-case hexadecimal digits per byte. */
  function HexUpper(bs: seq<byte>): string
  {
    if bs == [] then ""
    else [HexDigit(bs[0] as int / 16), HexDigit(bs[0] as int % 16)] + HexUpper(bs[1..])
  }

  /** The inverse of HexUpper: None on odd length or a character that is not an upper-case hex digit. */
  function UnhexUpper(text: string): Option<seq<byte>>
    decreases |text|
  {
    if |text| < 2 then (if text == [] then Some([]) else None)
    else
      var hi, lo := HexValue(text[0]), HexValue(text[1]);
      if hi.None? || lo.None? then None
      else match UnhexUpper(text[2..])
        case None => None
        case Some(rest) => Some([(hi.value * 16 + lo.value) as byte] + rest)
  }

  /** The raw-response text has two characters per byte, each an upper-case hexadecimal digit. */
  lemma {:induction false} HexUpperShape(bs: seq<byte>)
    ensures |HexUpper(bs)| == 2 * |bs|
    ensures forall i :: 0 <= i < |HexUpper(bs)| ==> IsUpperHexDigit(HexUpper(bs)[i])
    decreases |bs|
  {
    if bs != [] {
      HexUpperShape(bs[1..]);
      var t := HexUpper(bs);
      assert t[2..] == HexUpper(bs[1..]);
      forall i | 2 <= i < |t| ensures IsUpperHexDigit(t[i]) {
        assert t[i] == HexUpper(bs[1..])[i - 2];
      }
    }
  }

  /** One step of UnhexUpper: two digits in front of a text that decodes. */
  lemma UnhexUpperStep(hi: nat, lo: nat, rest: string, tail: seq<byte>)
    requires hi < 16 && lo < 16 && UnhexUpper(rest) == Some(tail)
    ensures UnhexUpper([HexDigit(hi), HexDigit(lo)] + rest) == Some([(hi * 16 + lo) as byte] + tail)
  {
    HexValueOfDigit(hi);
    HexValueOfDigit(lo);
    var t := [HexDigit(hi), HexDigit(lo)] + rest;
    assert t[0] == HexDigit(hi) && t[1] == HexDigit(lo) && t[2..] == rest;
  }

  /** The raw-response text decodes back to the bytes received. */
  lemma {:induction false} HexUpperRoundTrip(bs: seq<byte>)
    ensures UnhexUpper(HexUpper(bs)) == Some(bs)
    decreases |bs|
  {
    if bs != [] {
      HexUpperRoundTrip(bs[1..]);
      var hi, lo := bs[0] as int / 16, bs[0] as int % 16;
      UnhexUpperStep(hi, lo, HexUpper(bs[1..]), bs[1..]);
      assert (hi * 16 + lo) as byte == bs[0];
      assert bs == [bs[0]] + bs[1..];
    }
  }
}
