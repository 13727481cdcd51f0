/**
`getVersion` of CL/cl.hpp: the version number in the text that a platform reports,
"OpenCL <major>.<minor>" followed by a space or the end, as one integer.
*/
module VersionText {

  predicate Digit(c: char) {
    '0' <= c <= '9'
  }

  predicate Digits(s: string) {
    forall i :: 0 <= i < |s| ==> Digit(s[i])
  }

  /** The number a string of decimal digits stands for. */
  function Number(s: string): nat
    requires Digits(s)
  {
    if s == [] then 0 else Number(s[..|s| - 1]) * 10 + (s[|s| - 1] - '0') as nat
  }

  lemma {:induction false} PrefixIsSmaller(s: string, i: nat)
    requires Digits(s) && i <= |s|
    ensures Number(s[..i]) <= Number(s)
  {
    if i == |s| {
      assert s[..i] == s;
    } else {
      PrefixIsSmaller(s[..|s| - 1], i);
      assert s[..|s| - 1][..i] == s[..i];
    }
  }

  const MAJORS: int := 0x8000
  const MINORS: int := 0x1_0000

  /** Two halves of a 32-bit word; the lower fits its half, so `|` adds. */
  function Packed(major: nat, minor: nat): nat {
    major * MINORS + minor
  }

  /** One of the two loops: reads digits from `from` up to the stop at `end`. */
  method ReadNumber(info: string, from: nat, ghost end: nat, ghost bound: nat, stops: char -> bool)
    returns (number: nat, index: nat)
    requires from <= end < |info| && stops(info[end])
    requires Digits(info[from..end]) && Number(info[from..end]) < bound
    requires forall c :: Digit(c) ==> !stops(c)
    ensures index == end && number == Number(info[from..end])
  {
    ghost var digits := info[from..end];
    assert forall i :: from <= i < end ==> info[i] == digits[i - from];
    number, index := 0, from;
    while !stops(info[index])
      invariant from <= index <= end && number == Number(digits[..index - from]) < bound
      decreases end - index
    {
      assert digits[index - from] == info[index];
      assert digits[..index - from + 1][..index - from] == digits[..index - from];
      PrefixIsSmaller(digits, index - from + 1);
      number := number * 10 + (info[index] - '0') as nat;
      index := index + 1;
    }
    assert digits[..|digits|] == digits;
  }

  /**
  Reads the digits from index 7 to the dot at `d` and from there to the space or NUL at
  `e`.  Every index is in bounds and neither number overflows its half of the word.
  */
  method GetVersion(info: string, ghost d: nat, ghost e: nat) returns (version: nat)
    requires 7 <= d < e < |info| && info[d] == '.' && (info[e] == ' ' || info[e] == '\0')
    requires Digits(info[7..d]) && Digits(info[d + 1..e])
    requires Number(info[7..d]) < MAJORS && Number(info[d + 1..e]) < MINORS
    ensures version == Packed(Number(info[7..d]), Number(info[d + 1..e]))
  {
    var high, index := ReadNumber(info, 7, d, MAJORS, c => c == '.');
    var low, _ := ReadNumber(info, index + 1, e, MINORS, c => c == ' ' || c == '\0');
    version := high * 0x1_0000 + low;
  }

  /** Decimal notation without leading zeros. */
  function Decimal(n: nat): (s: string)
    ensures Digits(s) && |s| >= 1
    decreases n
  {
    if n < 10 then [n as char + '0'] else Decimal(n / 10) + [(n % 10) as char + '0']
  }

  lemma {:induction false} NumberOfDecimal(n: nat)
    ensures Number(Decimal(n)) == n
    decreases n
  {
    if n >= 10 {
      NumberOfDecimal(n / 10);
      assert Decimal(n)[..|Decimal(n)| - 1] == Decimal(n / 10);
    }
  }

  /** What a platform reports: the version, and after a space anything. */
  function Report(major: nat, minor: nat, rest: string): string {
    "OpenCL " + Decimal(major) + "." + Decimal(minor) + rest
  }

  /** The parser gives back every version that was printed. */
  method ParsePrinted(major: nat, minor: nat, rest: string) returns (version: nat)
    requires major < MAJORS && minor < MINORS && rest != [] && (rest[0] == ' ' || rest[0] == '\0')
    ensures version == Packed(major, minor)
  {
    var info := Report(major, minor, rest);
    ghost var d := 7 + |Decimal(major)|;
    ghost var e := d + 1 + |Decimal(minor)|;
    NumberOfDecimal(major);
    NumberOfDecimal(minor);
    assert info[7..d] == Decimal(major) && info[d + 1..e] == Decimal(minor);
    version := GetVersion(info, d, e);
  }

  /** Integers compare as versions do: by the major number, and then by the minor. */
  lemma OrderIsLexicographic(major: nat, minor: nat, major': nat, minor': nat)
    requires minor < MINORS && minor' < MINORS
    ensures Packed(major, minor) < Packed(major', minor') <==> major < major' || (major == major' && minor < minor')
  {
  }

  /** `isReferenceCountable`: the test on the integer is "later than 1.1"; and the one for `clCreateImage` is "1.2 or later". */
  lemma TestsDecide(major: nat, minor: nat)
    requires minor < MINORS
    ensures Packed(major, minor) > Packed(1, 1) <==> major > 1 || (major == 1 && minor > 1)
    ensures Packed(major, minor) >= 0x10002 <==> major > 1 || (major == 1 && minor >= 2)
  {
  }
}
