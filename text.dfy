/**
 * The JavaScript string operations the core relies on: `Array.prototype.join`,
 * `String.prototype.split` on one character, decimal rendering of integers in
 * template literals, and `Number.parseInt(s, 10)`.
 */
module Text {
  import opened Wrappers

  /** `xs.join(sep)`: the result starts with the first part. */
  function Join(xs: seq<string>, sep: string): (r: string)
    ensures |xs| >= 1 ==> xs[0] <= r
  {
    if |xs| == 0 then ""
    else if |xs| == 1 then xs[0]
    else xs[0] + sep + Join(xs[1..], sep)
  }

  /** `s.split(c)` for a one-character separator: always at least one part. */
  function Split(s: string, c: char): (parts: seq<string>)
    ensures |parts| >= 1
  {
    if s == [] then [[]]
    else
      var rest := Split(s[1..], c);
      if s[0] == c then [[]] + rest else [[s[0]] + rest[0]] + rest[1..]
  }

  /** `Array.prototype.pop` applied to the parts of a split: one of the parts. */
  function LastPart(parts: seq<string>): (r: string)
    requires |parts| >= 1
    ensures r in parts
  {
    parts[|parts| - 1]
  }

  /** Splitting a text with no separator in it yields the text itself, followed by what `s` splits into. */
  lemma {:induction false} SplitAfterPlainPrefix(y: string, s: string, c: char)
    requires c !in y
    ensures Split(y + s, c) == [y + Split(s, c)[0]] + Split(s, c)[1..]
  {
    var parts := Split(s, c);
    if y == [] {
      assert y + s == s;
      assert y + parts[0] == parts[0];
      assert [parts[0]] + parts[1..] == parts;
    } else {
      var ys := y + s;
      assert ys[0] == y[0] && ys[1..] == y[1..] + s;
      SplitAfterPlainPrefix(y[1..], s, c);
      var rest := Split(ys[1..], c);
      assert rest[0] == y[1..] + parts[0] && rest[1..] == parts[1..];
      assert Split(ys, c) == [[y[0]] + rest[0]] + rest[1..];
      assert [y[0]] + (y[1..] + parts[0]) == y + parts[0];
    }
  }

  /** A text splits into exactly one part iff it does not contain the separator. */
  lemma {:induction false} SplitSingle(s: string, c: char)
    ensures |Split(s, c)| == 1 <==> c !in s
    ensures c !in s ==> Split(s, c) == [s]
  {
    if s != [] {
      SplitSingle(s[1..], c);
      assert s == [s[0]] + s[1..];
    }
  }

  /**
   * The last part of a split is a suffix of the text that holds no separator, and
   * unless it is the whole text, the character before it is the separator.
   */
  lemma {:induction false} LastPartIsSuffix(s: string, c: char)
    ensures var e := LastPart(Split(s, c));
      && c !in e
      && |e| <= |s|
      && s[|s| - |e|..] == e
      && (|e| < |s| ==> s[|s| - |e| - 1] == c)
  {
    if s != [] {
      var tail := s[1..];
      LastPartIsSuffix(tail, c);
      if s[0] != c && |Split(tail, c)| == 1 {
        LastPartWhole(s, c);
      } else {
        LastPartOfTail(s, c);
        var e := LastPart(Split(tail, c));
        assert tail[|tail| - |e|..] == s[|s| - |e|..];
        if |e| < |tail| {
          assert s[|s| - |e| - 1] == tail[|tail| - |e| - 1];
        }
      }
    }
  }

  /** A text whose tail holds no separator, and which does not start with one, is its own last part. */
  lemma LastPartWhole(s: string, c: char)
    requires s != [] && s[0] != c && |Split(s[1..], c)| == 1
    ensures LastPart(Split(s, c)) == s && c !in s
  {
    var t := s[1..];
    SplitSingle(t, c);
    var rest := Split(t, c);
    assert rest == [t] && rest[1..] == [];
    assert [s[0]] + t == s;
    assert Split(s, c) == [s];
    assert c !in s by {
      forall i | 0 <= i < |s| ensures s[i] != c {
        if i > 0 {
          assert s[i] == t[i - 1];
        }
      }
    }
  }

  /**
   * Otherwise the last part is that of the tail, and when the tail is all of
   * it, the text starts with the separator.
   */
  lemma LastPartOfTail(s: string, c: char)
    requires s != [] && !(s[0] != c && |Split(s[1..], c)| == 1)
    ensures LastPart(Split(s, c)) == LastPart(Split(s[1..], c))
    ensures s[0] != c ==> c in s[1..]
  {
    var t := s[1..];
    var rest := Split(t, c);
    var parts := Split(s, c);
    if s[0] == c {
      assert parts == [[]] + rest;
    } else {
      SplitSingle(t, c);
      assert parts == [[s[0]] + rest[0]] + rest[1..];
      assert parts[|parts| - 1] == rest[|rest| - 1];
    }
  }

  /** Joining the parts of a split with the separator gives the text back. */
  lemma {:induction false} JoinSplit(s: string, c: char)
    ensures Join(Split(s, c), [c]) == s
  {
    if s != [] {
      var rest := Split(s[1..], c);
      JoinSplit(s[1..], c);
      if s[0] == c {
        assert Split(s, c) == [[]] + rest;
        assert Join(Split(s, c), [c]) == [] + [c] + Join(rest, [c]);
      } else if |rest| == 1 {
        assert Split(s, c) == [[s[0]] + rest[0]];
      } else {
        var parts := Split(s, c);
        assert parts[1..] == rest[1..];
        assert Join(rest, [c]) == rest[0] + [c] + Join(rest[1..], [c]);
      }
      assert s == [s[0]] + s[1..];
    }
  }

  /** No part of a split holds the separator. */
  lemma {:induction false} SplitAvoids(s: string, c: char)
    ensures forall k :: 0 <= k < |Split(s, c)| ==> c !in Split(s, c)[k]
  {
    if s != [] {
      SplitAvoids(s[1..], c);
      var rest := Split(s[1..], c);
      if s[0] != c {
        assert c !in [s[0]] + rest[0];
        assert forall k :: 1 <= k < |Split(s, c)| ==> Split(s, c)[k] == rest[k];
      } else {
        assert forall k :: 1 <= k < |Split(s, c)| ==> Split(s, c)[k] == rest[k - 1];
      }
    }
  }

  /** Splitting a join of separator-free parts gives the parts back. */
  lemma {:induction false} SplitJoin(ys: seq<string>, c: char)
    requires |ys| >= 1
    requires forall k :: 0 <= k < |ys| ==> c !in ys[k]
    ensures Split(Join(ys, [c]), c) == ys
  {
    if |ys| == 1 {
      SplitSingle(ys[0], c);
    } else {
      SplitJoin(ys[1..], c);
      var tail := Join(ys[1..], [c]);
      assert Join(ys, [c]) == ys[0] + ([c] + tail);
      SplitAfterPlainPrefix(ys[0], [c] + tail, c);
      assert ([c] + tail)[1..] == tail;
      assert Split([c] + tail, c) == [[]] + ys[1..];
      assert Split(Join(ys, [c]), c) == [ys[0] + []] + ys[1..];
      assert ys[0] + [] == ys[0];
      assert ys == [ys[0]] + ys[1..];
    }
  }

  /** No part of a join holds `c` when neither the parts nor the separator do. */
  lemma {:induction false} JoinAvoids(xs: seq<string>, sep: string, c: char)
    requires c !in sep
    requires forall k :: 0 <= k < |xs| ==> c !in xs[k]
    ensures c !in Join(xs, sep)
  {
    if |xs| > 1 {
      JoinAvoids(xs[1..], sep, c);
    }
  }

  /** `xs.join(",\n")` is the same text as the lines `x + ","` (all but the last) joined by a newline. */
  function WithTrailingCommas(xs: seq<string>): (ys: seq<string>)
    ensures |ys| == |xs|
    ensures forall k :: 0 <= k < |xs| ==> ys[k] == if k < |xs| - 1 then xs[k] + "," else xs[k]
  {
    if |xs| <= 1 then xs else [xs[0] + ","] + WithTrailingCommas(xs[1..])
  }

  lemma {:induction false} JoinCommaNewline(xs: seq<string>)
    ensures Join(xs, ",\n") == Join(WithTrailingCommas(xs), "\n")
  {
    if |xs| > 1 {
      JoinCommaNewline(xs[1..]);
      assert xs[0] + ",\n" + Join(xs[1..], ",\n") == (xs[0] + ",") + "\n" + Join(xs[1..], ",\n");
    }
  }

  // ---------------------------------------------------------------------------
  // Decimal numbers

  predicate IsDigit(ch: char) { '0' <= ch <= '9' }

  function DigitChar(d: nat): (ch: char)
    requires d < 10
    ensures IsDigit(ch) && ch as int - '0' as int == d
  {
    ['0', '1', '2', '3', '4', '5', '6', '7', '8', '9'][d]
  }

  function DigitValue(ch: char): (d: nat)
    requires IsDigit(ch)
    ensures d < 10 && DigitChar(d) == ch
  {
    (ch as int - '0' as int) as nat
  }

  /** The decimal digits of a natural number, as a template literal renders it. */
  function NatToString(n: nat): (s: string)
    ensures |s| >= 1 && forall k :: 0 <= k < |s| ==> IsDigit(s[k])
  {
    if n < 10 then [DigitChar(n)] else NatToString(n / 10) + [DigitChar(n % 10)]
  }

  /** `${n}` for an integer `n`. */
  function IntToString(n: int): (s: string)
    ensures '\n' !in s && '\'' !in s
  {
    if n < 0 then "-" + NatToString(-n) else NatToString(n)
  }

  /** The value of a non-empty run of decimal digits, most significant first. */
  function DigitsValue(ds: string): nat
    requires forall k :: 0 <= k < |ds| ==> IsDigit(ds[k])
  {
    if ds == [] then 0 else DigitsValue(ds[..|ds| - 1]) * 10 + DigitValue(ds[|ds| - 1])
  }

  /** The longest prefix of `s` made of decimal digits. */
  function DigitPrefix(s: string): (ds: string)
    ensures forall k :: 0 <= k < |ds| ==> IsDigit(ds[k])
  {
    if s == [] || !IsDigit(s[0]) then [] else [s[0]] + DigitPrefix(s[1..])
  }

  /** The characters ECMAScript's `parseInt` skips before the number (WhiteSpace and LineTerminator). */
  predicate IsJsSpace(ch: char)
  {
    if ch <= ' ' then
      '\t' <= ch <= '\r' || ch == ' '  // tab, line feed, vertical tab, form feed, carriage return, space
    else
      '\U{00A0}' <= ch &&
      (ch == '\U{00A0}' || ch == '\U{1680}' || '\U{2000}' <= ch <= '\U{200A}'
       || ch == '\U{2028}' || ch == '\U{2029}' || ch == '\U{202F}' || ch == '\U{205F}'
       || ch == '\U{3000}' || ch == '\U{FEFF}')
  }

  function TrimStart(s: string): (t: string)
    ensures |t| <= |s| && t == s[|s| - |t|..]
    ensures t != [] ==> !IsJsSpace(t[0])
  {
    if s != [] && IsJsSpace(s[0]) then TrimStart(s[1..]) else s
  }

  /**
   * `Number.parseInt(s, 10)`: leading white space, an optional sign, then the
   * longest run of digits; `None` stands for `NaN` (no digit at all).
   */
  function ParseInt(s: string): Option<int>
  {
    var t := TrimStart(s);
    var ds := DigitPrefix(UnsignedPart(t));
    var magnitude: int := if ds == [] then 0 else DigitsValue(ds);
    if ds == [] then None
    else if t[0] == '-' then Some(-magnitude)
    else Some(magnitude)
  }

  function UnsignedPart(t: string): string
  {
    if t != [] && (t[0] == '-' || t[0] == '+') then t[1..] else t
  }

  lemma {:induction false} DigitsValueOfNat(n: nat)
    ensures DigitsValue(NatToString(n)) == n
  {
    if n >= 10 {
      DigitsValueOfNat(n / 10);
      var s := NatToString(n);
      assert s[..|s| - 1] == NatToString(n / 10);
      assert DigitValue(s[|s| - 1]) == n % 10;
    }
  }

  lemma {:induction false} DigitPrefixOfDigits(s: string)
    requires forall k :: 0 <= k < |s| ==> IsDigit(s[k])
    ensures DigitPrefix(s) == s
  {
    if s != [] {
      DigitPrefixOfDigits(s[1..]);
      assert s == [s[0]] + s[1..];
    }
  }

  /** `Number.parseInt` reads back every integer a template literal renders. */
  lemma ParseIntOfIntToString(n: int)
    ensures ParseInt(IntToString(n)) == Some(n)
  {
    if n < 0 {
      ParseIntOfNegative(-n);
    } else {
      ParseIntOfNatString(n);
    }
  }

  /** The digits of a natural number read back as it. */
  lemma ParseIntOfNatString(m: nat)
    ensures ParseInt(IntToString(m)) == Some(m)
  {
    DigitsValueOfNat(m);
    ParseIntOfDigits(NatToString(m));
  }

  /** A minus sign before the digits of a positive number reads back as its negation. */
  lemma ParseIntOfNegative(m: nat)
    requires m >= 1
    ensures ParseInt(IntToString(-(m as int))) == Some(-(m as int))
  {
    var digits := NatToString(m);
    IntToStringOfNegative(m);
    DigitsValueOfNat(m);
    ParseIntOfMinusDigits(digits);
  }

  lemma IntToStringOfNegative(m: nat)
    requires m >= 1
    ensures IntToString(-(m as int)) == "-" + NatToString(m)
  {
  }

  /** A run of digits alone reads back as its value. */
  lemma ParseIntOfDigits(digits: string)
    requires |digits| >= 1 && forall k :: 0 <= k < |digits| ==> IsDigit(digits[k])
    ensures ParseInt(digits) == Some(DigitsValue(digits) as int)
  {
    DigitPrefixOfDigits(digits);
    NotSpace(digits[0]);
    UnsignedPartOfDigits(digits);
    ParseIntOfPlainNumber(digits);
  }

  /** A minus sign and a run of digits read back as the negated value. */
  lemma ParseIntOfMinusDigits(digits: string)
    requires |digits| >= 1 && forall k :: 0 <= k < |digits| ==> IsDigit(digits[k])
    ensures ParseInt("-" + digits) == Some(-(DigitsValue(digits) as int))
  {
    DigitPrefixOfDigits(digits);
    var s := "-" + digits;
    NotSpace('-');
    assert s[0] == '-' && s[1..] == digits;
    assert UnsignedPart(s) == digits;
    ParseIntOfPlainNumber(s);
  }

  /** `Number.parseInt` on a signed run of digits with nothing before or after it. */
  lemma ParseIntOfPlainNumber(s: string)
    requires s != [] && !IsJsSpace(s[0])
    requires UnsignedPart(s) != [] && DigitPrefix(UnsignedPart(s)) == UnsignedPart(s)
    ensures s[0] == '-' ==> ParseInt(s) == Some(-(DigitsValue(UnsignedPart(s)) as int))
    ensures s[0] != '-' ==> ParseInt(s) == Some(DigitsValue(UnsignedPart(s)) as int)
  {
    assert TrimStart(s) == s;
  }

  lemma UnsignedPartOfDigits(t: string)
    requires t != [] && IsDigit(t[0])
    ensures UnsignedPart(t) == t
  {
    assert t[0] != '-' && t[0] != '+';
  }

  lemma NotSpace(ch: char)
    requires ch == '-' || ch == '+' || IsDigit(ch)
    ensures !IsJsSpace(ch)
  {
  }

  /**
   * The subset of numeric strings that `Number(s)` (and Joi's number coercion)
   * turns into an integer, as modelled here: an optional sign followed by one or
   * more decimal digits and nothing else.
   */
  function DecimalInteger(s: string): (r: Option<int>)
  {
    var u := UnsignedPart(s);
    if u != [] && DigitPrefix(u) == u then
      var magnitude: int := DigitsValue(u);
      if s[0] == '-' then Some(-magnitude) else Some(magnitude)
    else None
  }

  /** A rendered integer is a minus sign or digits, character by character. */
  lemma IntToStringChars(n: int)
    ensures IntToString(n) != []
    ensures forall k :: 0 <= k < |IntToString(n)| ==> IntToString(n)[k] == '-' || IsDigit(IntToString(n)[k])
  {
    if n < 0 {
      var digits := NatToString(-n);
      assert forall k :: 1 <= k < |IntToString(n)| ==> IntToString(n)[k] == digits[k - 1];
    }
  }

  /** `Number(s)` reads back every integer a template literal renders. */
  lemma DecimalIntegerOfIntToString(n: int)
    ensures DecimalInteger(IntToString(n)) == Some(n)
  {
    if n < 0 {
      var m: nat := -n;
      var digits := NatToString(m);
      IntToStringOfNegative(m);
      DigitPrefixOfDigits(digits);
      DigitsValueOfNat(m);
      var s := "-" + digits;
      assert s[0] == '-' && s[1..] == digits;
      assert UnsignedPart(s) == digits;
    } else {
      var digits := NatToString(n);
      DigitPrefixOfDigits(digits);
      DigitsValueOfNat(n);
      UnsignedPartOfDigits(digits);
      assert digits[0] != '-';
    }
  }

  /** Every string `DecimalInteger` accepts is read the same way by `Number.parseInt`. */
  lemma DecimalIntegerAgreesWithParseInt(s: string)
    requires DecimalInteger(s).Some?
    ensures ParseInt(s) == DecimalInteger(s)
  {
    var u := UnsignedPart(s);
    assert u != [] && DigitPrefix(u) == u;
    assert s[0] == '-' || s[0] == '+' || IsDigit(s[0]);
    NotSpace(s[0]);
    ParseIntOfPlainNumber(s);
  }

  /**
   * Unary `+` (or `Number`) on a string, `None` standing for `NaN`: the empty
   * string is 0, otherwise a plain decimal integer as `DecimalInteger` reads it.
   */
  function NumberOf(s: string): (r: Option<int>)
    ensures s == "" ==> r == Some(0)
    ensures s != "" ==> r == DecimalInteger(s)
  {
    if s == "" then Some(0) else DecimalInteger(s)
  }

  /**
   * `+s` and `Number.parseInt(s, 10)` agree on every non-empty string `+s` reads
   * as a number; on the empty string `+` gives 0 and `parseInt` gives `NaN`.
   */
  lemma NumberOfAgreesWithParseInt(s: string)
    requires NumberOf(s).Some?
    ensures s == "" ==> ParseInt(s).None? && NumberOf(s) == Some(0)
    ensures s != "" ==> ParseInt(s) == NumberOf(s)
  {
    if s != "" {
      DecimalIntegerAgreesWithParseInt(s);
    }
  }

  /** The `length` JavaScript gives a string: UTF-16 code units, two for a character beyond U+FFFF. */
  function Utf16Length(s: string): (n: nat)
    ensures |s| <= n <= 2 * |s|
  {
    if s == [] then 0 else (if s[0] as int >= 0x1_0000 then 2 else 1) + Utf16Length(s[1..])
  }

  /** A string of characters up to U+FFFF has one code unit per character. */
  lemma {:induction false} Utf16LengthOfBasic(s: string)
    requires forall k :: 0 <= k < |s| ==> s[k] as int < 0x1_0000
    ensures Utf16Length(s) == |s|
  {
    if s != [] {
      Utf16LengthOfBasic(s[1..]);
    }
  }
}
