/**
  The few `java.lang.String`, `Integer` and `Boolean` operations the game relies on,
  stated over `seq<char>`: `trim`, `split` on one literal character (which drops
  trailing empty pieces), `String.join`, `Integer.parseInt`, `%d`, `%b`,
  `Boolean.parseBoolean`, `toUpperCase` and `replace` of one character.
  Characters are compared as code units; case mapping covers ASCII letters only.
*/
module JavaText {
  import opened Wrappers

  const INT_MIN: int := -0x8000_0000
  const INT_MAX: int := 0x7FFF_FFFF

  /** A value of Java's 32-bit `int`. */
  predicate IsInt32(n: int) {
    INT_MIN <= n <= INT_MAX
  }

  // ---------------------------------------------------------------------------
  // trim

  /** `String.trim` removes every leading and trailing character at or below U+0020. */
  function TrimLeft(s: string): (r: string)
    ensures |r| <= |s|
  {
    if s != [] && s[0] <= ' ' then TrimLeft(s[1..]) else s
  }

  function TrimRight(s: string): (r: string)
    ensures |r| <= |s|
  {
    if s != [] && s[|s| - 1] <= ' ' then TrimRight(s[..|s| - 1]) else s
  }

  function Trim(s: string): string {
    TrimRight(TrimLeft(s))
  }

  /** Text that starts and ends with a visible character is its own trim. */
  lemma TrimOfTrimmed(s: string)
    requires s != [] && s[0] > ' ' && s[|s| - 1] > ' '
    ensures Trim(s) == s
  {
  }

  lemma {:induction false} TrimLeftEnds(s: string)
    ensures TrimLeft(s) == [] || TrimLeft(s)[0] > ' '
    ensures TrimLeft(s) == s[|s| - |TrimLeft(s)|..]
  {
    if s != [] && s[0] <= ' ' {
      TrimLeftEnds(s[1..]);
    }
  }

  lemma {:induction false} TrimRightEnds(s: string)
    ensures TrimRight(s) == [] || TrimRight(s)[|TrimRight(s)| - 1] > ' '
    ensures TrimRight(s) == s[..|TrimRight(s)|]
  {
    if s != [] && s[|s| - 1] <= ' ' {
      TrimRightEnds(s[..|s| - 1]);
    }
  }

  lemma {:induction false} TrimLeftKeeps(s: string, i: int)
    requires 0 <= i < |s| && s[i] > ' '
    ensures |TrimLeft(s)| >= |s| - i
  {
    if s[0] <= ' ' {
      TrimLeftKeeps(s[1..], i - 1);
    }
  }

  lemma {:induction false} TrimRightKeeps(s: string, i: int)
    requires 0 <= i < |s| && s[i] > ' '
    ensures |TrimRight(s)| > i
  {
    if s[|s| - 1] <= ' ' {
      TrimRightKeeps(s[..|s| - 1], i);
    }
  }

  /** A visible character anywhere in the text survives `trim`. */
  lemma TrimKeepsVisible(s: string, i: int)
    requires 0 <= i < |s| && s[i] > ' '
    ensures Trim(s) != []
  {
    var t := TrimLeft(s);
    TrimLeftKeeps(s, i);
    TrimLeftEnds(s);
    var j := i - (|s| - |t|);
    assert t[j] == s[i];
    TrimRightKeeps(t, j);
  }

  /** A trimmed text is empty or starts and ends with a visible character. */
  lemma TrimEnds(s: string)
    ensures var r := Trim(s); r == [] || (r[0] > ' ' && r[|r| - 1] > ' ')
  {
    TrimLeftEnds(s);
    TrimRightEnds(TrimLeft(s));
  }

  // ---------------------------------------------------------------------------
  // decimal digits, Integer.parseInt and %d

  predicate IsDigit(c: char) {
    '0' <= c <= '9'
  }

  predicate AllDigits(s: string) {
    forall i :: 0 <= i < |s| ==> IsDigit(s[i])
  }

  /** The value of a string of decimal digits, most significant first. */
  function DigitsValue(s: string): nat
    requires AllDigits(s)
  {
    if s == [] then 0 else DigitsValue(s[..|s| - 1]) * 10 + (s[|s| - 1] as int - '0' as int)
  }

  function DigitChar(d: nat): (c: char)
    requires d < 10
    ensures IsDigit(c) && c as int - '0' as int == d
  {
    (d + '0' as int) as char
  }

  /** The shortest decimal numeral of `n` (no leading zeros; "0" for zero). */
  function NatToDigits(n: nat): (r: string)
    ensures r != [] && AllDigits(r)
  {
    if n < 10 then [DigitChar(n)] else NatToDigits(n / 10) + [DigitChar(n % 10)]
  }

  lemma {:induction false} NatToDigitsValue(n: nat)
    ensures DigitsValue(NatToDigits(n)) == n
  {
    if n >= 10 {
      NatToDigitsValue(n / 10);
      var s := NatToDigits(n);
      assert s[..|s| - 1] == NatToDigits(n / 10);
    }
  }

  /** `String.format("%d", n)` for an `int`. */
  function FormatInt(n: int): (r: string)
    ensures r != [] && ',' !in r && ' ' !in r
  {
    if n < 0 then "-" + NatToDigits(-n) else NatToDigits(n)
  }

  /** `%d` writes an optional minus sign and then digits only. */
  lemma FormatIntShape(n: int)
    ensures var s := FormatInt(n);
            && IsDigit(s[|s| - 1])
            && forall i | 0 <= i < |s| :: IsDigit(s[i]) || (i == 0 && s[i] == '-')
  {
  }

  /**
    `Integer.parseInt(s)`: an optional `+` or `-` followed by at least one digit, whose
    value fits in 32 bits; anything else throws `NumberFormatException` (here: `None`).
  */
  function ParseInt(s: string): (r: Option<int>)
    ensures r.Some? ==> IsInt32(r.value)
  {
    if s == [] then None
    else
      var body := if s[0] == '-' || s[0] == '+' then s[1..] else s;
      if body == [] || !AllDigits(body) then None
      else
        var v: int := if s[0] == '-' then -(DigitsValue(body) as int) else DigitsValue(body);
        if IsInt32(v) then Some(v) else None
  }

  /** Text that trims to nothing is not a number: what `Integer.parseInt` accepts ends in a digit. */
  lemma BlankIsNoInt(s: string)
    requires Trim(s) == []
    ensures ParseInt(s) == None
  {
    if ParseInt(s).Some? {
      var body := if s[0] == '-' || s[0] == '+' then s[1..] else s;
      assert IsDigit(body[|body| - 1]) && s[|s| - 1] == body[|body| - 1];
      TrimKeepsVisible(s, |s| - 1);
    }
  }

  /** Every 32-bit value survives `%d` followed by `Integer.parseInt`. */
  lemma ParseFormatInt(n: int)
    requires IsInt32(n)
    ensures ParseInt(FormatInt(n)) == Some(n)
  {
    var s := FormatInt(n);
    if n < 0 {
      var digits := NatToDigits(-n);
      NatToDigitsValue(-n);
      assert s == ['-'] + digits;
      assert s[1..] == digits;
    } else {
      NatToDigitsValue(n);
      assert IsDigit(s[0]);
    }
  }

  /** A blank at either end makes `Integer.parseInt` reject the text. */
  lemma ParseIntRejectsBlankEnds(s: string)
    requires s != [] && (s[0] == ' ' || s[|s| - 1] == ' ')
    ensures ParseInt(s) == None
  {
    var body := if s[0] == '-' || s[0] == '+' then s[1..] else s;
    if s[0] == ' ' {
      assert !IsDigit(body[0]);
    } else if body != [] {
      assert body[|body| - 1] == ' ';
    }
  }

  // ---------------------------------------------------------------------------
  // booleans

  /** `String.format("%b", b)`. */
  function FormatBool(b: bool): string {
    if b then "true" else "false"
  }

  function ToLowerAscii(c: char): char {
    if 'A' <= c <= 'Z' then (c as int + 32) as char else c
  }

  function ToUpperAscii(c: char): char {
    if 'a' <= c <= 'z' then (c as int - 32) as char else c
  }

  /** `String.equalsIgnoreCase`, with case folding of ASCII letters. */
  predicate EqualsIgnoreCase(a: string, b: string) {
    |a| == |b| && forall i :: 0 <= i < |a| ==> ToLowerAscii(a[i]) == ToLowerAscii(b[i])
  }

  /** `Boolean.parseBoolean`: true exactly for "true" in any letter case. */
  predicate ParseBoolean(s: string) {
    EqualsIgnoreCase(s, "true")
  }

  lemma ParseFormatBool(b: bool)
    ensures ParseBoolean(FormatBool(b)) == b
  {
    if !b {
      assert ToLowerAscii(FormatBool(b)[0]) != ToLowerAscii("true"[0]);
    }
  }

  /** `String.toUpperCase` restricted to ASCII letters. */
  function ToUpperCase(s: string): (r: string)
    ensures |r| == |s| && forall i :: 0 <= i < |s| ==> r[i] == ToUpperAscii(s[i])
  {
    if s == [] then [] else [ToUpperAscii(s[0])] + ToUpperCase(s[1..])
  }

  // ---------------------------------------------------------------------------
  // searching and replacing

  predicate StartsWith(s: string, prefix: string) {
    |prefix| <= |s| && s[..|prefix|] == prefix
  }

  predicate OccursAt(s: string, t: string, i: int) {
    0 <= i <= |s| - |t| && s[i..i + |t|] == t
  }

  /** `String.contains`. */
  predicate Contains(s: string, t: string) {
    exists i | 0 <= i <= |s| - |t| :: OccursAt(s, t, i)
  }

  /** `String.indexOf(c)`: the first position of `c`, or -1. */
  function IndexOf(s: string, c: char): (r: int)
    ensures -1 <= r < |s|
    ensures r == -1 <==> c !in s
    ensures r >= 0 ==> s[r] == c && c !in s[..r]
  {
    if s == [] then -1
    else if s[0] == c then 0
    else
      var k := IndexOf(s[1..], c);
      if k == -1 then -1 else k + 1
  }

  /** `String.lastIndexOf(c)`: the last position of `c`, or -1. */
  function LastIndexOf(s: string, c: char): (r: int)
    ensures -1 <= r < |s|
    ensures r == -1 <==> c !in s
    ensures r >= 0 ==> s[r] == c && c !in s[r + 1..]
  {
    if s == [] then -1
    else if s[|s| - 1] == c then |s| - 1
    else LastIndexOf(s[..|s| - 1], c)
  }

  /** `s.replace(String.valueOf(c), "")`: every occurrence of `c` removed. */
  function RemoveChar(s: string, c: char): (r: string)
    ensures c !in r && |r| <= |s|
    ensures c !in s ==> r == s
  {
    if s == [] then []
    else (if s[0] == c then [] else [s[0]]) + RemoveChar(s[1..], c)
  }

  // ---------------------------------------------------------------------------
  // split and join

  /** Every piece between separators, empty ones included (one more piece than separators). */
  function SplitAll(s: string, sep: char): (r: seq<string>)
    ensures |r| >= 1
    ensures sep !in s ==> r == [s]
  {
    if s == [] then [[]]
    else
      var rest := SplitAll(s[1..], sep);
      if s[0] == sep then [[]] + rest
      else
        assert [s[0]] + s[1..] == s;
        [[s[0]] + rest[0]] + rest[1..]
  }

  function DropTrailingEmpty(ps: seq<string>): (r: seq<string>)
    ensures |r| <= |ps|
  {
    if ps != [] && ps[|ps| - 1] == [] then DropTrailingEmpty(ps[..|ps| - 1]) else ps
  }

  /**
    `s.split(sep)` for a separator that is not a regular-expression metacharacter:
    the whole string when the separator does not occur, otherwise the pieces with
    trailing empty pieces removed.
  */
  function Split(s: string, sep: char): seq<string>
  {
    if sep !in s then [s] else DropTrailingEmpty(SplitAll(s, sep))
  }

  /** `String.join(String.valueOf(sep), ps)`. */
  function Join(ps: seq<string>, sep: char): string {
    if ps == [] then []
    else if |ps| == 1 then ps[0]
    else ps[0] + [sep] + Join(ps[1..], sep)
  }

  predicate NoSeparator(ps: seq<string>, sep: char) {
    forall i :: 0 <= i < |ps| ==> sep !in ps[i]
  }

  lemma {:induction false} JoinHasSeparator(ps: seq<string>, sep: char)
    requires |ps| >= 2
    ensures sep in Join(ps, sep)
  {
    assert Join(ps, sep)[|ps[0]|] == sep;
  }

  lemma {:induction false} SplitAllJoin(ps: seq<string>, sep: char)
    requires |ps| >= 1 && NoSeparator(ps, sep)
    ensures SplitAll(Join(ps, sep), sep) == ps
  {
    if |ps| == 1 {
      assert sep !in ps[0];
    } else {
      SplitAllJoin(ps[1..], sep);
      SplitAllPrefix(ps[0], Join(ps[1..], sep), sep);
      assert Join(ps, sep) == ps[0] + ([sep] + Join(ps[1..], sep));
    }
  }

  /** Splitting `a + sep + b` where `a` holds no separator yields `a` and then the pieces of `b`. */
  lemma {:induction false} SplitAllPrefix(a: string, b: string, sep: char)
    requires sep !in a
    ensures SplitAll(a + ([sep] + b), sep) == [a] + SplitAll(b, sep)
  {
    if a == [] {
      assert a + ([sep] + b) == [sep] + b;
      assert ([sep] + b)[1..] == b;
    } else {
      SplitAllPrefix(a[1..], b, sep);
      assert (a + ([sep] + b))[1..] == a[1..] + ([sep] + b);
      assert [a[0]] + a[1..] == a;
    }
  }

  /**
    `split` undoes `join` when no piece holds the separator and the last piece is not
    empty (or there is only one piece).
  */
  lemma SplitJoin(ps: seq<string>, sep: char)
    requires |ps| >= 1 && NoSeparator(ps, sep)
    requires |ps| == 1 || ps[|ps| - 1] != []
    ensures Split(Join(ps, sep), sep) == ps
  {
    if |ps| == 1 {
      assert sep !in ps[0];
    } else {
      JoinHasSeparator(ps, sep);
      SplitAllJoin(ps, sep);
    }
  }

  /** Joining two non-empty lists of pieces puts one separator between the two joins. */
  lemma {:induction false} JoinAppend(a: seq<string>, b: seq<string>, sep: char)
    requires a != [] && b != []
    ensures Join(a + b, sep) == Join(a, sep) + [sep] + Join(b, sep)
  {
    if |a| == 1 {
      assert (a + b)[1..] == b;
    } else {
      JoinAppend(a[1..], b, sep);
      assert (a + b)[1..] == a[1..] + b;
    }
  }
}
