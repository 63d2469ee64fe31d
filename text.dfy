/**
  The string operations of Foundation and the Swift standard library that the app relies
  on: `components(separatedBy:)`, string interpolation of an `Int` ("\(n)") and the
  failable initializer `Int(_: String)` on a 64-bit platform.
 */
module Text {
  import opened Wrappers

  const IntMin: int := -0x8000_0000_0000_0000
  const IntMax: int := 0x7FFF_FFFF_FFFF_FFFF

  /** `CharacterSet.newlines`: U+000A to U+000D, U+0085, U+2028 and U+2029. */
  predicate IsNewline(c: char) {
    c == '\n' || c == '\U{000B}' || c == '\U{000C}' || c == '\r'
    || c == '\U{0085}' || c == '\U{2028}' || c == '\U{2029}'
  }

  predicate IsComma(c: char) {
    c == ','
  }

  /** No character of `s` is a separator. */
  predicate Free(s: string, isSep: char -> bool) {
    forall i :: 0 <= i < |s| ==> !isSep(s[i])
  }

  /**
    `s.components(separatedBy: set)`: the maximal runs between separator characters,
    empty runs included, so `n` separators give `n + 1` pieces.
   */
  function Split(s: string, isSep: char -> bool): (pieces: seq<string>)
    ensures |pieces| >= 1
    ensures forall i :: 0 <= i < |pieces| ==> Free(pieces[i], isSep)
    decreases |s|
  {
    if s == [] then [""]
    else
      var rest := Split(s[1..], isSep);
      if isSep(s[0]) then [""] + rest
      else [[s[0]] + rest[0]] + rest[1..]
  }

  /** The inverse of `Split` for one separator: the pieces joined by `sep`. */
  function Join(pieces: seq<string>, sep: char): string
    decreases |pieces|
  {
    if pieces == [] then ""
    else if |pieces| == 1 then pieces[0]
    else pieces[0] + [sep] + Join(pieces[1..], sep)
  }

  function CountSeparators(s: string, isSep: char -> bool): nat
    decreases |s|
  {
    if s == [] then 0 else (if isSep(s[0]) then 1 else 0) + CountSeparators(s[1..], isSep)
  }

  /** Splitting gives one piece more than there are separators. */
  lemma {:induction false} SplitCount(s: string, isSep: char -> bool)
    ensures |Split(s, isSep)| == CountSeparators(s, isSep) + 1
    decreases |s|
  {
    if s != [] {
      SplitCount(s[1..], isSep);
    }
  }

  /** Joining the pieces of a split with the one separator gives back the text. */
  lemma {:induction false} JoinSplit(s: string, sep: char, isSep: char -> bool)
    requires forall c :: isSep(c) <==> c == sep
    ensures Join(Split(s, isSep), sep) == s
    decreases |s|
  {
    if s != [] {
      var rest := Split(s[1..], isSep);
      JoinSplit(s[1..], sep, isSep);
      if isSep(s[0]) {
        assert s == [sep] + s[1..];
        if |rest| == 1 {
          assert Join([""] + rest, sep) == "" + [sep] + rest[0];
        } else {
          assert ([""] + rest)[1..] == rest;
        }
      } else {
        var head := [s[0]] + rest[0];
        if |rest| == 1 {
          assert s == [s[0]] + s[1..];
        } else {
          assert Join(rest, sep) == rest[0] + [sep] + Join(rest[1..], sep);
          assert ([head] + rest[1..])[1..] == rest[1..];
          assert s == [s[0]] + s[1..];
        }
      }
    }
  }

  /** Splitting text made by joining separator-free pieces gives back the pieces. */
  lemma {:induction false} SplitJoin(pieces: seq<string>, sep: char, isSep: char -> bool)
    requires |pieces| >= 1 && isSep(sep)
    requires forall i :: 0 <= i < |pieces| ==> Free(pieces[i], isSep)
    ensures Split(Join(pieces, sep), isSep) == pieces
    decreases |pieces|
  {
    if |pieces| == 1 {
      SplitFree(pieces[0], isSep);
    } else {
      SplitJoin(pieces[1..], sep, isSep);
      SplitPrefix(pieces[0], [sep] + Join(pieces[1..], sep), isSep);
      assert Join(pieces, sep) == pieces[0] + ([sep] + Join(pieces[1..], sep));
      assert Split([sep] + Join(pieces[1..], sep), isSep) == [""] + pieces[1..] by {
        assert ([sep] + Join(pieces[1..], sep))[1..] == Join(pieces[1..], sep);
      }
      var tail := [""] + pieces[1..];
      assert tail[0] == "" && tail[1..] == pieces[1..];
      assert pieces[0] + "" == pieces[0];
      assert [pieces[0]] + pieces[1..] == pieces;
    }
  }

  lemma {:induction false} SplitFree(s: string, isSep: char -> bool)
    requires Free(s, isSep)
    ensures Split(s, isSep) == [s]
    decreases |s|
  {
    if s != [] {
      SplitFree(s[1..], isSep);
      assert s == [s[0]] + s[1..];
    }
  }

  /** A separator-free prefix extends the first piece and leaves the others alone. */
  lemma {:induction false} SplitPrefix(w: string, t: string, isSep: char -> bool)
    requires Free(w, isSep)
    ensures Split(w + t, isSep) == [w + Split(t, isSep)[0]] + Split(t, isSep)[1..]
    decreases |w|
  {
    var st := Split(t, isSep);
    if w == [] {
      assert w + t == t && w + st[0] == st[0];
      assert [st[0]] + st[1..] == st;
    } else {
      SplitPrefix(w[1..], t, isSep);
      assert (w + t)[1..] == w[1..] + t;
      assert [w[0]] + (w[1..] + Split(t, isSep)[0]) == w + Split(t, isSep)[0];
    }
  }

  /** Splitting after one more leading character. */
  lemma SplitCons(c: char, s: string, isSep: char -> bool)
    ensures Split([c] + s, isSep) ==
      if isSep(c) then [""] + Split(s, isSep)
      else [[c] + Split(s, isSep)[0]] + Split(s, isSep)[1..]
  {
    assert ([c] + s)[0] == c && ([c] + s)[1..] == s;
  }

  /** Text joined at a separator splits into the pieces of each side. */
  lemma {:induction false} SplitAppend(a: string, sep: char, b: string, isSep: char -> bool)
    requires isSep(sep)
    ensures Split(a + [sep] + b, isSep) == Split(a, isSep) + Split(b, isSep)
    decreases |a|
  {
    if a == [] {
      assert a + [sep] + b == [sep] + b;
      SplitCons(sep, b, isSep);
    } else {
      SplitAppend(a[1..], sep, b, isSep);
      SplitAppendHead(a[0], a[1..], sep, b, isSep);
      assert [a[0]] + a[1..] == a;
    }
  }

  lemma SplitAppendHead(c: char, a: string, sep: char, b: string, isSep: char -> bool)
    requires Split(a + [sep] + b, isSep) == Split(a, isSep) + Split(b, isSep)
    ensures Split([c] + a + [sep] + b, isSep) == Split([c] + a, isSep) + Split(b, isSep)
  {
    var tail := a + [sep] + b;
    assert [c] + a + [sep] + b == [c] + tail;
    SplitCons(c, tail, isSep);
    SplitCons(c, a, isSep);
    ConsPieces(c, Split(a, isSep), Split(b, isSep), isSep);
  }

  /** How a leading character joins the first of the pieces `left + right`. */
  lemma ConsPieces(c: char, left: seq<string>, right: seq<string>, isSep: char -> bool)
    requires |left| >= 1
    ensures var both := left + right;
      (if isSep(c) then [""] + both else [[c] + both[0]] + both[1..])
      == (if isSep(c) then [""] + left else [[c] + left[0]] + left[1..]) + right
  {
    var both := left + right;
    assert both[0] == left[0] && both[1..] == left[1..] + right;
  }

  predicate IsDigit(c: char) {
    '0' <= c <= '9'
  }

  function DigitChar(n: nat): (c: char)
    requires n < 10
    ensures IsDigit(c)
  {
    "0123456789"[n]
  }

  function DigitValue(c: char): (n: nat)
    requires IsDigit(c)
    ensures n < 10
  {
    (c as int - '0' as int)
  }

  /** The decimal digits of `n`, most significant first, without leading zeros. */
  function NatToDigits(n: nat): (s: string)
    ensures |s| >= 1 && forall i :: 0 <= i < |s| ==> IsDigit(s[i])
    decreases n
  {
    if n < 10 then [DigitChar(n)] else NatToDigits(n / 10) + [DigitChar(n % 10)]
  }

  /** Decimal digits contain no character outside '0' .. '9'. */
  lemma DigitsFree(n: nat, isSep: char -> bool)
    requires forall c :: IsDigit(c) ==> !isSep(c)
    ensures Free(NatToDigits(n), isSep)
  {
  }

  /** `"\(n)"` for an `Int`: decimal, with a minus sign when negative. */
  function IntToString(n: int): string {
    if n < 0 then "-" + NatToDigits(-n) else NatToDigits(n)
  }

  /** A printed `Int` holds only digits and possibly a leading minus sign. */
  lemma IntToStringFree(n: int, isSep: char -> bool)
    requires !isSep('-') && forall c :: IsDigit(c) ==> !isSep(c)
    ensures Free(IntToString(n), isSep)
  {
    DigitsFree(if n < 0 then -n else n, isSep);
  }

  /** The number a run of decimal digits denotes; the empty run denotes 0, and `ParseInt` demands at least one digit. */
  function DigitsValue(s: string): nat
    requires forall i :: 0 <= i < |s| ==> IsDigit(s[i])
    decreases |s|
  {
    if s == [] then 0 else DigitsValue(s[..|s| - 1]) * 10 + DigitValue(s[|s| - 1])
  }

  /**
    `Int(s)`: an optional `+` or `-`, then one or more ASCII digits and nothing else,
    denoting a value that fits in 64 bits; otherwise nil.
   */
  function ParseInt(s: string): (r: Option<int>)
    ensures r.Some? ==> IntMin <= r.value <= IntMax
  {
    var signed := |s| > 0 && (s[0] == '+' || s[0] == '-');
    var digits := if signed then s[1..] else s;
    if |digits| == 0 || exists i :: 0 <= i < |digits| && !IsDigit(digits[i]) then None
    else
      var magnitude: int := DigitsValue(digits);
      var n: int := if signed && s[0] == '-' then -magnitude else magnitude;
      if IntMin <= n <= IntMax then Some(n) else None
  }

  lemma {:induction false} DigitsRoundTrip(n: nat)
    ensures DigitsValue(NatToDigits(n)) == n
    decreases n
  {
    if n >= 10 {
      DigitsRoundTrip(n / 10);
      var s := NatToDigits(n / 10) + [DigitChar(n % 10)];
      assert s[..|s| - 1] == NatToDigits(n / 10);
    }
  }

  /** Printing an `Int` and parsing it back gives the same `Int`. */
  lemma IntRoundTrip(n: int)
    requires IntMin <= n <= IntMax
    ensures ParseInt(IntToString(n)) == Some(n)
  {
    if n < 0 {
      DigitsRoundTrip(-n);
      assert IntToString(n)[1..] == NatToDigits(-n);
    } else {
      DigitsRoundTrip(n);
    }
  }
}
