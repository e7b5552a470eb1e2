/** Text helpers with the behaviour of the Arduino core routines the firmware
    relies on: decimal printing (Print::print), zero-padded printf fields,
    String::toInt (atol), String::indexOf and String::toLowerCase, plus the
    comma splitting that the parsers perform. */
module Text {

  datatype Option<T> = None | Some(value: T)

  predicate IsDigit(c: char) { '0' <= c <= '9' }

  predicate AllDigits(s: string) { forall i :: 0 <= i < |s| ==> IsDigit(s[i]) }

  function DigitChar(d: nat): (c: char)
    requires d < 10
    ensures IsDigit(c) && DigitValue(c) == d
  {
    ('0' as int + d) as char
  }

  function DigitValue(c: char): (d: nat)
    requires IsDigit(c)
    ensures d < 10
  {
    c as int - '0' as int
  }

  /** Decimal text of n with no leading zeros, as Print::print writes an unsigned number. */
  function NatToString(n: nat): (s: string)
    ensures 1 <= |s| && AllDigits(s)
    ensures |s| == 1 <==> n < 10
    decreases n
  {
    if n < 10 then [DigitChar(n)] else NatToString(n / 10) + [DigitChar(n % 10)]
  }

  /** The number a string of decimal digits denotes. */
  function DecimalValue(s: string): nat
    requires AllDigits(s)
  {
    if s == [] then 0 else DecimalValue(s[..|s| - 1]) * 10 + DigitValue(s[|s| - 1])
  }

  /** Printing a number and reading the digits back gives the number. */
  lemma {:induction false} DecimalValueOfNatToString(n: nat)
    ensures DecimalValue(NatToString(n)) == n
    decreases n
  {
    if n >= 10 {
      var s := NatToString(n);
      assert s[..|s| - 1] == NatToString(n / 10);
      DecimalValueOfNatToString(n / 10);
    }
  }

  function Pow10(k: nat): (p: nat)
    ensures p >= 1
  {
    if k == 0 then 1 else 10 * Pow10(k - 1)
  }

  /** A number below 10^w prints in at most w digits. */
  lemma {:induction false} NatToStringLength(n: nat, w: nat)
    requires 1 <= w && n < Pow10(w)
    ensures |NatToString(n)| <= w
    decreases w
  {
    if n >= 10 {
      assert w >= 2;
      assert n / 10 < Pow10(w - 1);
      NatToStringLength(n / 10, w - 1);
    }
  }

  function Zeros(k: nat): (s: string)
    ensures |s| == k && forall i :: 0 <= i < k ==> s[i] == '0'
  {
    seq(k, _ => '0')
  }

  /** n printed in at least w digits, zero-padded on the left, as printf's
      "%0wd" conversion prints a non-negative value. */
  function Pad(n: nat, w: nat): (s: string)
    ensures AllDigits(s)
    ensures |s| >= w && |s| >= |NatToString(n)|
  {
    var d := NatToString(n);
    if |d| < w then Zeros(w - |d|) + d else d
  }

  lemma {:induction false} ZerosValue(k: nat)
    ensures DecimalValue(Zeros(k)) == 0
    decreases k
  {
    if k > 0 {
      assert Zeros(k)[..k - 1] == Zeros(k - 1);
      ZerosValue(k - 1);
    }
  }

  lemma {:induction false} LeadingZerosValue(k: nat, s: string)
    requires AllDigits(s)
    ensures DecimalValue(Zeros(k) + s) == DecimalValue(s)
    decreases |s|
  {
    if s == [] {
      assert Zeros(k) + s == Zeros(k);
      ZerosValue(k);
    } else {
      var t := Zeros(k) + s;
      assert t[..|t| - 1] == Zeros(k) + s[..|s| - 1];
      LeadingZerosValue(k, s[..|s| - 1]);
    }
  }

  /** Zero padding does not change the value printed. */
  lemma {:induction false} PadValue(n: nat, w: nat)
    ensures DecimalValue(Pad(n, w)) == n
  {
    var d := NatToString(n);
    if |d| < w {
      PadZerosValue(n, w - |d|);
    } else {
      DecimalValueOfNatToString(n);
    }
  }

  lemma PadZerosValue(n: nat, k: nat)
    ensures DecimalValue(Zeros(k) + NatToString(n)) == n
  {
    LeadingZerosValue(k, NatToString(n));
    DecimalValueOfNatToString(n);
  }

  /** A number below 10^w padded to width w is exactly w characters long. */
  lemma PadLength(n: nat, w: nat)
    requires 1 <= w && n < Pow10(w)
    ensures |Pad(n, w)| == w
  {
    NatToStringLength(n, w);
  }

  lemma ConcatAssoc<T>(a: seq<T>, b: seq<T>, c: seq<T>)
    ensures a + (b + c) == (a + b) + c
  {
  }

  /** The characters C's isspace accepts. */
  predicate IsSpace(c: char)
  {
    c == ' ' || c == '\t' || c == '\n' || c == '\r' || c == 11 as char || c == 12 as char
  }

  /** s without its leading isspace characters. */
  function DropSpaces(s: string): (t: string)
    ensures |t| <= |s| && t == s[|s| - |t|..]
    ensures |t| > 0 ==> !IsSpace(t[0])
  {
    if |s| > 0 && IsSpace(s[0]) then DropSpaces(s[1..]) else s
  }

  /** What DropSpaces drops is white space. */
  lemma {:induction false} DroppedSpaces(s: string)
    ensures forall i :: 0 <= i < |s| - |DropSpaces(s)| ==> IsSpace(s[i])
  {
    if |s| > 0 && IsSpace(s[0]) {
      DroppedSpaces(s[1..]);
      assert forall i :: 1 <= i < |s| - |DropSpaces(s)| ==> s[i] == s[1..][i - 1];
    }
  }

  /** s without its trailing isspace characters. */
  function DropTrailingSpaces(s: string): (t: string)
    ensures |t| <= |s| && t == s[..|t|]
    ensures |t| > 0 ==> !IsSpace(t[|t| - 1])
    ensures |t| < |s| ==> IsSpace(s[|s| - 1])
  {
    if |s| > 0 && IsSpace(s[|s| - 1]) then DropTrailingSpaces(s[..|s| - 1]) else s
  }

  /** What DropTrailingSpaces drops is white space. */
  lemma {:induction false} DroppedTrailingSpaces(s: string)
    ensures forall i :: |DropTrailingSpaces(s)| <= i < |s| ==> IsSpace(s[i])
  {
    if |s| > 0 && IsSpace(s[|s| - 1]) {
      DroppedTrailingSpaces(s[..|s| - 1]);
      assert forall i :: |DropTrailingSpaces(s)| <= i < |s| - 1 ==> s[i] == s[..|s| - 1][i];
    }
  }

  /** String::trim: s without the isspace characters at either end. */
  function Trim(s: string): (t: string)
    ensures |t| > 0 ==> !IsSpace(t[0]) && !IsSpace(t[|t| - 1])
  {
    var u := DropSpaces(s);
    var t := DropTrailingSpaces(u);
    assert |t| > 0 ==> t[0] == u[0];
    t
  }

  /** Trim keeps the slice of s between its leading and its trailing white
      space: all of s that lies before or after the result is white space. */
  lemma TrimIsSlice(s: string)
    ensures var t := Trim(s); var a := |s| - |DropSpaces(s)|;
      a + |t| <= |s| && t == s[a..a + |t|]
      && (forall i :: 0 <= i < a ==> IsSpace(s[i]))
      && (forall i :: a + |t| <= i < |s| ==> IsSpace(s[i]))
  {
    var u := DropSpaces(s);
    var t := DropTrailingSpaces(u);
    assert Trim(s) == t;
    DroppedSpaces(s);
    DroppedTrailingSpaces(u);
    TrimmedSlice(s, |s| - |u|, u, t);
  }

  /** The tail u = s[a..] after the leading white space, cut before its
      trailing white space to t: t is the slice of s from a, with only white
      space around it. */
  lemma TrimmedSlice(s: string, a: nat, u: string, t: string)
    requires a <= |s| && u == s[a..] && (forall i :: 0 <= i < a ==> IsSpace(s[i])) && (|u| > 0 ==> !IsSpace(u[0]))
    requires |t| <= |u| && t == u[..|t|] && (forall j :: |t| <= j < |u| ==> IsSpace(u[j]))
    requires |t| > 0 ==> !IsSpace(t[|t| - 1])
    ensures a + |t| <= |s| && t == s[a..a + |t|]
      && (forall i :: 0 <= i < a ==> IsSpace(s[i]))
      && (forall i :: a + |t| <= i < |s| ==> IsSpace(s[i]))
    ensures |t| > 0 ==> !IsSpace(t[0]) && !IsSpace(t[|t| - 1])
  {
    assert t == s[a..a + |t|] by {
      assert forall j :: 0 <= j < |t| ==> t[j] == u[j] == s[a + j];
    }
    assert |t| > 0 ==> t[0] == u[0];
    SpacesBeyond(s, a, u, |t|);
  }

  /** The white space after position k of the tail u = s[a..] lies after
      position a + k of s. */
  lemma SpacesBeyond(s: string, a: nat, u: string, k: nat)
    requires a <= |s| && u == s[a..] && k <= |u|
    requires forall j :: k <= j < |u| ==> IsSpace(u[j])
    ensures forall i :: a + k <= i < |s| ==> IsSpace(s[i])
  {
    forall i | a + k <= i < |s|
      ensures IsSpace(s[i])
    {
      assert s[i] == u[i - a];
    }
  }

  /** Trim leaves nothing exactly when the text is all white space. */
  lemma TrimEmpty(s: string)
    ensures Trim(s) == [] <==> forall i :: 0 <= i < |s| ==> IsSpace(s[i])
  {
    TrimIsSlice(s);
    var a := |s| - |DropSpaces(s)|;
    if Trim(s) != [] {
      assert !IsSpace(s[a]);
    }
  }

  /** Text that neither starts nor ends with a space is its own trim. */
  lemma TrimOfTrimmed(s: string)
    requires |s| > 0 && !IsSpace(s[0]) && !IsSpace(s[|s| - 1])
    ensures Trim(s) == s
  {
  }

  /** The longest prefix of s made of decimal digits. */
  function DigitPrefix(s: string): (p: string)
    ensures AllDigits(p) && |p| <= |s| && p == s[..|p|]
    ensures |p| < |s| ==> !IsDigit(s[|p|])
  {
    if |s| > 0 && IsDigit(s[0]) then [s[0]] + DigitPrefix(s[1..]) else []
  }

  /** String::toInt, which is atol: leading white space is skipped, an optional
      sign is read, then the decimal digits up to the first other character;
      no digits give 0. (atol's behaviour on overflow is undefined and not modelled.) */
  function ToInt(s: string): int
  {
    var t := DropSpaces(s);
    if |t| > 0 && t[0] == '-' then 0 - DecimalValue(DigitPrefix(t[1..])) as int
    else if |t| > 0 && t[0] == '+' then DecimalValue(DigitPrefix(t[1..]))
    else DecimalValue(DigitPrefix(t))
  }

  lemma {:induction false} DigitPrefixOfDigits(s: string)
    requires AllDigits(s)
    ensures DigitPrefix(s) == s
    decreases |s|
  {
    if |s| > 0 {
      DigitPrefixOfDigits(s[1..]);
    }
  }

  /** toInt reads back every number that Print::print writes. */
  lemma ToIntOfNatToString(n: nat)
    ensures ToInt(NatToString(n)) == n
  {
    var s := NatToString(n);
    assert !IsSpace(s[0]) && s[0] != '-' && s[0] != '+';
    assert DropSpaces(s) == s;
    DigitPrefixOfDigits(s);
    DecimalValueOfNatToString(n);
  }

  /** String::indexOf(c, from): the first position at or after `from` holding c, or -1. */
  function IndexOf(s: string, c: char, from: nat): (r: int)
    ensures r == -1 || (from <= r < |s| && s[r] == c)
    decreases |s| - from
  {
    if from >= |s| then -1 else if s[from] == c then from else IndexOf(s, c, from + 1)
  }

  /** IndexOf finds the first occurrence after `from`, given where it is. */
  lemma {:induction false} IndexOfAt(s: string, c: char, from: nat, r: nat)
    requires from <= r < |s| && s[r] == c
    requires forall i :: from <= i < r ==> s[i] != c
    ensures IndexOf(s, c, from) == r
    decreases r - from
  {
    if from < r {
      IndexOfAt(s, c, from + 1, r);
    }
  }

  /** IndexOf reports -1 exactly when c does not occur at or after `from`. */
  lemma {:induction false} IndexOfNone(s: string, c: char, from: nat)
    requires forall i :: from <= i < |s| ==> s[i] != c
    ensures IndexOf(s, c, from) == -1
    decreases |s| - from
  {
    if from < |s| {
      IndexOfNone(s, c, from + 1);
    }
  }

  /** The positions IndexOf passes over do not hold c. */
  lemma {:induction false} IndexOfFirst(s: string, c: char, from: nat)
    ensures IndexOf(s, c, from) == -1 ==> forall i :: from <= i < |s| ==> s[i] != c
    ensures IndexOf(s, c, from) != -1 ==> forall i :: from <= i < IndexOf(s, c, from) ==> s[i] != c
    decreases |s| - from
  {
    if from < |s| && s[from] != c {
      IndexOfFirst(s, c, from + 1);
    }
  }

  /** Searching from `from` is searching the suffix that starts there, shifted back by `from`. */
  lemma {:induction false} IndexOfSuffix(s: string, c: char, from: nat, k: nat)
    requires from <= k <= |s|
    ensures var r := IndexOf(s[from..], c, k - from);
      IndexOf(s, c, k) == if r < 0 then -1 else r + from
    decreases |s| - k
  {
    if k < |s| {
      assert s[from..][k - from] == s[k];
      IndexOfSuffix(s, c, from, k + 1);
    }
  }

  /** C's tolower in the "C" locale: only the ASCII capitals change. */
  function ToLower(c: char): (l: char)
    ensures 'A' <= c <= 'Z' ==> l as int == c as int + 32
    ensures !('A' <= c <= 'Z') ==> l == c
  {
    if 'A' <= c <= 'Z' then (c as int + 32) as char else c
  }

  /** String::toLowerCase. */
  function ToLowerString(s: string): (t: string)
    ensures |t| == |s| && forall i :: 0 <= i < |s| ==> t[i] == ToLower(s[i])
  {
    seq(|s|, i requires 0 <= i < |s| => ToLower(s[i]))
  }

  /** Lower-casing twice is lower-casing once. */
  lemma ToLowerStringIdempotent(s: string)
    ensures ToLowerString(ToLowerString(s)) == ToLowerString(s)
  {
    var t := ToLowerString(s);
    assert forall i :: 0 <= i < |t| ==> ToLower(t[i]) == t[i];
  }

  /** The fields joined with `sep` between consecutive ones, as the report rows are printed. */
  function Join(fields: seq<string>, sep: char): string
  {
    if |fields| == 0 then ""
    else if |fields| == 1 then fields[0]
    else fields[0] + [sep] + Join(fields[1..], sep)
  }

  /** s cut at every occurrence of sep. */
  function Split(s: string, sep: char): (parts: seq<string>)
    ensures |parts| >= 1
    decreases |s|
  {
    var i := IndexOf(s, sep, 0);
    if i < 0 then [s] else [s[..i]] + Split(s[i + 1..], sep)
  }

  /** A joined line of two or more fields breaks at the first separator into
      the first field and the join of the others. */
  lemma JoinHead(fields: seq<string>, sep: char)
    requires |fields| >= 2 && sep !in fields[0]
    ensures var s := Join(fields, sep);
      IndexOf(s, sep, 0) == |fields[0]| && s[..|fields[0]|] == fields[0]
      && s[|fields[0]| + 1..] == Join(fields[1..], sep)
  {
    var f := fields[0];
    var rest := Join(fields[1..], sep);
    var s := f + [sep] + rest;
    assert Join(fields, sep) == s;
    assert s[|f|] == sep;
    assert forall i :: 0 <= i < |f| ==> s[i] == f[i];
    IndexOfAt(s, sep, 0, |f|);
    assert s[..|f|] == f;
    assert s[|f| + 1..] == rest;
  }

  /** Splitting a joined line recovers the fields when no field holds the separator. */
  lemma {:induction false} SplitJoin(fields: seq<string>, sep: char)
    requires |fields| >= 1
    requires forall k :: 0 <= k < |fields| ==> sep !in fields[k]
    ensures Split(Join(fields, sep), sep) == fields
    decreases |fields|
  {
    if |fields| == 1 {
      IndexOfNone(fields[0], sep, 0);
    } else {
      JoinHead(fields, sep);
      SplitJoin(fields[1..], sep);
      assert fields == [fields[0]] + fields[1..];
    }
  }

  /** A character that is not the separator and occurs in no field does not occur in the joined line. */
  lemma {:induction false} JoinAvoids(fields: seq<string>, sep: char, c: char)
    requires c != sep
    requires forall k :: 0 <= k < |fields| ==> c !in fields[k]
    ensures c !in Join(fields, sep)
    decreases |fields|
  {
    if |fields| > 1 {
      JoinAvoids(fields[1..], sep, c);
    }
  }

  /** A string of digits holds no separator character. */
  lemma DigitsHaveNo(s: string, c: char)
    requires AllDigits(s) && !IsDigit(c)
    ensures c !in s
  {
  }
}
