/**
Account addresses: the node's encoder and decoder (futurehead/lib/numbers.cpp) and
the decoder of the representative-weight script (ci/record_rep_weights.py), which
goes through the standard base-32 alphabet of section 6 of RFC 4648.

An address is "fpsc_" and 60 characters of five bits: a 256-bit key, then 40 bits
of checksum.  The checksum function (five bytes of blake2b) is a parameter.
*/
module AccountCodec {
  import opened Common
  import opened Radix

  const TWO_36 := 0x10_0000_0000
  const TWO_40 := 0x100_0000_0000
  const TWO_256 := 0x1_0000_0000_0000_0000_0000_0000_0000_0000_0000_0000_0000_0000_0000_0000_0000_0000

  /** The characters of an address after its prefix. */
  const GROUPS: nat := 60

  /** The bytes that eight base-32 digits make. */
  const QUANTUM: nat := 5

  const PREFIX := "fpsc_"
  const NO_DIGIT := '~' as int

  // ------------------------------------------------------------- the alphabets

  /** `account_encode`: the table 1, 3-9, a-k, m-u, w-z, by its runs. */
  function AccountEncode(v: nat): char
    requires v < 32
  {
    if v == 0 then '1'
    else if v < 8 then ('3' as int + v - 1) as char
    else if v < 19 then ('a' as int + v - 8) as char
    else if v < 28 then ('m' as int + v - 19) as char
    else ('w' as int + v - 28) as char
  }

  /** `account_decode`: the reverse table, '~' for characters that are no digit. */
  function AccountDecode(c: char): nat {
    if c == '1' then 0
    else if '3' <= c <= '9' then c as int - '3' as int + 1
    else if 'a' <= c <= 'k' then c as int - 'a' as int + 8
    else if 'm' <= c <= 'u' then c as int - 'm' as int + 19
    else if 'w' <= c <= 'z' then c as int - 'w' as int + 28
    else NO_DIGIT
  }

  /** The 32 digits in order: no 0, 2, l or v. */
  const ALPHABET: string := "13456789abcdefghijkmnopqrstuwxyz"

  lemma AlphabetInverse(v: nat, c: char)
    ensures v < 32 ==> AccountEncode(v) == ALPHABET[v] && AccountDecode(AccountEncode(v)) == v
    ensures AccountDecode(c) != NO_DIGIT <==> AccountDecode(c) < 32
    ensures AccountDecode(c) < 32 ==> AccountEncode(AccountDecode(c)) == c
  {
  }

  /** The base-32 alphabet of RFC 4648. */
  function Base32Char(v: nat): char
    requires v < 32
  {
    if v < 26 then ('A' as int + v) as char else ('2' as int + v - 26) as char
  }

  function Base32Value(c: char): Option<nat> {
    if 'A' <= c <= 'Z' then Some(c as int - 'A' as int)
    else if '2' <= c <= '7' then Some(c as int - '2' as int + 26)
    else None
  }

  // -------------------------------------------------------------- the encoder

  function Text(ds: seq<nat>): string
    requires Digits(32, ds)
  {
    seq(|ds|, i requires 0 <= i < |ds| => AccountEncode(ds[i]))
  }

  /** Key and checksum as one 296-bit number. */
  function Packed(check: nat -> nat, key: nat): nat {
    key * TWO_40 + check(key) % TWO_40
  }

  /** The last `w` five-bit groups of a number, as text. */
  function TextOf(n: nat, w: nat): string {
    ToBaseShape(32, n, w);
    Text(ToBase(32, n, w))
  }

  /** The address of a key. */
  function Address(check: nat -> nat, key: nat): string {
    PREFIX + TextOf(Packed(check, key), GROUPS)
  }

  function Reverse(s: string): string {
    if s == [] then [] else Reverse(s[1..]) + [s[0]]
  }

  lemma {:induction false} ReverseAppend(s: string, t: string)
    ensures Reverse(s + t) == Reverse(t) + Reverse(s)
  {
    if s == [] {
      assert s + t == t;
    } else {
      ReverseAppend(s[1..], t);
      assert (s + t)[1..] == s[1..] + t;
    }
  }

  /** One turn of the encoder: the low group moves from the number to the output. */
  lemma EncodeStep(whole: string, n: nat, w: nat, out: string)
    requires w > 0 && whole == TextOf(n, w) + Reverse(out)
    ensures n % 32 < 32 && whole == TextOf(n / 32, w - 1) + Reverse(out + [AccountEncode(n % 32)])
  {
    ToBaseShape(32, n / 32, w - 1);
    var rest, c := ToBase(32, n / 32, w - 1), AccountEncode(n % 32);
    assert Text(rest + [n % 32]) == Text(rest) + [c];
    ReverseAppend(out, [c]);
    assert Reverse([c]) == [c];
  }

  /** Five bits at a time from the low end: the text comes out backwards. */
  method EncodeGroups(number: nat, w: nat) returns (out: string)
    ensures Reverse(out) == TextOf(number, w)
  {
    out := "";
    var n := number;
    ghost var whole := TextOf(number, w);
    for i := 0 to w
      invariant whole == TextOf(n, w - i) + Reverse(out)
    {
      EncodeStep(whole, n, w - i, out);
      out := out + [AccountEncode(n % 32)];
      n := n / 32;
    }
  }

  /** `encode_account`: the groups, the prefix backwards, and all of it reversed. */
  method EncodeAccount(check: nat -> nat, key: nat) returns (destination: string)
    requires key < TWO_256
    ensures destination == Address(check, key)
  {
    destination := EncodeGroups(Packed(check, key), GROUPS);
    ReverseAppend(destination, "_cspf");
    destination := ReverseString(destination + "_cspf");
  }

  /** `std::reverse` */
  method ReverseString(s: string) returns (r: string)
    ensures r == Reverse(s)
  {
    r := "";
    for i := 0 to |s|
      invariant Reverse(s) == Reverse(s[i..]) + r
    {
      assert s[i..][1..] == s[i + 1..];
      r := [s[i]] + r;
    }
  }

  // ---------------------------------------------------------- the node's decoder

  /** The digits of a text, unless some character is no digit. */
  function Values(s: string): Option<seq<nat>> {
    if forall i :: 0 <= i < |s| ==> AccountDecode(s[i]) < 32
    then Some(seq(|s|, i requires 0 <= i < |s| => AccountDecode(s[i])))
    else None
  }

  predicate HasPrefix(s: string) {
    |s| >= 5 && s[..4] == "fpsc" && (s[4] == '_' || s[4] == '-')
  }

  /** `decode_account`: the key, or nothing if the address is malformed or its checksum is wrong. */
  function NodeDecode(check: nat -> nat, s: string): Option<nat> {
    if !HasPrefix(s) || |s| != GROUPS + 5 then None
    else if s[5] != '1' && s[5] != '3' then None
    else match Values(s[5..])
      case None => None
      case Some(ds) =>
        var n := FromBase(32, ds);
        var key := (n / TWO_40) % TWO_256;
        if n % TWO_40 == check(key) % TWO_40 then Some(key) else None
  }

  lemma ValuesAre(s: string, ds: seq<nat>)
    requires |ds| == |s| && forall j :: 0 <= j < |s| ==> AccountDecode(s[j]) == ds[j] < 32
    ensures Values(s) == Some(ds)
  {
    assert Values(s).value == ds;
  }

  lemma ValuesText(ds: seq<nat>)
    requires Digits(32, ds)
    ensures Values(Text(ds)) == Some(ds)
  {
    forall i | 0 <= i < |ds|
      ensures AccountDecode(Text(ds)[i]) == ds[i]
    {
      AlphabetInverse(ds[i], '0');
    }
    assert Values(Text(ds)).value == ds;
  }

  lemma TextValues(s: string)
    requires Values(s).Some?
    ensures Digits(32, Values(s).value) && |Values(s).value| == |s| && Text(Values(s).value) == s
  {
  }

  /** `decode_account` as it runs: character by character. */
  method DecodeAccount(check: nat -> nat, source: string) returns (error: bool, key: nat)
    ensures error <==> NodeDecode(check, source).None?
    ensures !error ==> NodeDecode(check, source) == Some(key)
  {
    key := 0;
    error := |source| < 5;
    if !error {
      var prefix := source[0] == 'f' && source[1] == 'p' && source[2] == 's' && source[3] == 'c'
                    && (source[4] == '_' || source[4] == '-');
      assert prefix <==> HasPrefix(source);
      error := !prefix || |source| != GROUPS + 5;
      if !error {
        if source[5] == '1' || source[5] == '3' {
          var n := 0;
          ghost var ds: seq<nat> := [];
          var i := 5;
          while !error && i < |source|
            invariant 5 <= i <= |source| && |ds| <= i - 5
            invariant !error ==> |ds| == i - 5 && n == FromBase(32, ds)
            invariant forall j :: 0 <= j < |ds| ==> AccountDecode(source[5..][j]) == ds[j] < 32
            invariant error ==> exists j :: 0 <= j < |source[5..]| && AccountDecode(source[5..][j]) >= 32
            decreases |source| - i, if error then 0 else 1
          {
            var byte := AccountDecode(source[i]);
            AlphabetInverse(0, source[i]);
            assert source[5..][i - 5] == source[i];
            error := source[i] < 48 as char || source[i] >= 128 as char || byte == NO_DIGIT;
            if !error {
              assert (ds + [byte])[..|ds|] == ds;
              n := n * 32 + byte;
              ds := ds + [byte];
              i := i + 1;
            }
          }
          if !error {
            ValuesAre(source[5..], ds);
            key := (n / TWO_40) % TWO_256;
            error := n % TWO_40 != check(key) % TWO_40;
          }
        } else {
          error := true;
        }
      }
    }
  }

  // ------------------------------------------------------------ exactness

  const TWO_295 :=
    0x80_0000_0000_0000_0000_0000_0000_0000_0000_0000_0000_0000_0000_0000_0000_0000_0000_0000_0000

  lemma PowerOf59()
    ensures Pow(32, GROUPS - 1) == TWO_295
  {
    PowAdd(32, 10, 10);
    PowAdd(32, 20, 10);
    PowAdd(32, 30, 29);
    PowAdd(32, 20, 9);
    assert Pow(32, 10) == 0x4_0000_0000_0000;
    assert Pow(32, 9) == 0x2000_0000_0000;
  }

  /** The leading group of a 300-bit number tells whether it fits in 296 bits. */
  lemma LeadingGroup(ds: seq<nat>)
    requires Digits(32, ds) && |ds| == GROUPS
    ensures ds[0] < 2 <==> FromBase(32, ds) < 2 * TWO_295
  {
    var rest := ds[1..];
    assert [ds[0]] + rest == ds;
    FromBaseAppend(32, [ds[0]], rest);
    FromBaseBound(32, rest);
    PowerOf59();
    assert [ds[0]][..0] == [];
    assert FromBase(32, [ds[0]]) == ds[0];
  }

  lemma Unpack(check: nat -> nat, key: nat)
    requires key < TWO_256
    ensures (Packed(check, key) / TWO_40) % TWO_256 == key
    ensures Packed(check, key) % TWO_40 == check(key) % TWO_40
  {
  }

  lemma AddressDigits(check: nat -> nat, key: nat)
    requires key < TWO_256
    ensures var ds := ToBase(32, Packed(check, key), GROUPS);
            && Digits(32, ds) && |ds| == GROUPS && FromBase(32, ds) == Packed(check, key) && ds[0] < 2
            && Address(check, key) == PREFIX + Text(ds)
  {
    var n := Packed(check, key);
    assert n < 2 * TWO_295;
    PowerOf59();
    assert Pow(32, GROUPS) == 32 * Pow(32, GROUPS - 1);
    ToBaseShape(32, n, GROUPS);
    FromTo(32, n, GROUPS);
    LeadingGroup(ToBase(32, n, GROUPS));
  }

  /** A number in two parts, and its digits. */
  lemma DigitsInParts(high: nat, low: nat, m: nat, n: nat)
    requires low < Pow(32, n) && high < Pow(32, m)
    ensures ToBase(32, high * Pow(32, n) + low, m + n) == ToBase(32, high, m) + ToBase(32, low, n)
  {
    var xs, ys := ToBase(32, high, m), ToBase(32, low, n);
    ToBaseShape(32, high, m);
    ToBaseShape(32, low, n);
    FromTo(32, high, m);
    FromTo(32, low, n);
    FromBaseAppend(32, xs, ys);
    ToFrom(32, xs + ys);
  }

  /** How the 60 characters of an address are used. */
  const KEY_GROUPS: nat := 52
  const CHECK_GROUPS: nat := 8

  lemma PowersOfParts()
    ensures Pow(32, CHECK_GROUPS) == TWO_40 && TWO_256 <= Pow(32, KEY_GROUPS)
  {
    PowAdd(32, 4, 4);
    PowAdd(32, 8, 8);
    PowAdd(32, 16, 16);
    PowAdd(32, 32, 16);
    PowAdd(32, 48, 4);
    assert Pow(32, 4) == 0x10_0000;
  }

  lemma TextAppend(xs: seq<nat>, ys: seq<nat>)
    requires Digits(32, xs) && Digits(32, ys)
    ensures Digits(32, xs + ys) && Text(xs + ys) == Text(xs) + Text(ys)
  {
  }

  lemma TextInParts(high: nat, low: nat, m: nat, n: nat)
    requires low < Pow(32, n) && high < Pow(32, m)
    ensures TextOf(high * Pow(32, n) + low, m + n) == TextOf(high, m) + TextOf(low, n)
  {
    DigitsInParts(high, low, m, n);
    ToBaseShape(32, high, m);
    ToBaseShape(32, low, n);
    TextAppend(ToBase(32, high, m), ToBase(32, low, n));
  }

  lemma PackedInParts(check: nat -> nat, key: nat, p: nat)
    requires p == TWO_40
    ensures Packed(check, key) == key * p + check(key) % TWO_40
  {
  }

  lemma AddressInParts(check: nat -> nat, key: nat, m: nat, n: nat, text: string)
    requires Pow(32, n) == TWO_40 && key < Pow(32, m)
    requires text == TextOf(Packed(check, key), m + n)
    ensures text == TextOf(key, m) + TextOf(check(key) % TWO_40, n)
  {
    PackedInParts(check, key, Pow(32, n));
    TextInParts(key, check(key) % TWO_40, m, n);
  }

  /** An address is the prefix, the key in 52 characters, and the checksum in 8. */
  lemma AddressLayout(check: nat -> nat, key: nat)
    requires key < TWO_256
    ensures Address(check, key) == PREFIX + TextOf(key, KEY_GROUPS) + TextOf(check(key) % TWO_40, CHECK_GROUPS)
  {
    PowersOfParts();
    AddressInParts(check, key, KEY_GROUPS, CHECK_GROUPS, TextOf(Packed(check, key), GROUPS));
  }

  /** An address with a dash in place of the underscore. */
  function Dashed(address: string): string {
    if |address| > 4 then address[4 := '-'] else address
  }

  /** The node accepts exactly the addresses of keys, and the same with a dash. */
  lemma NodeDecodeExact(check: nat -> nat, s: string, key: nat)
    ensures NodeDecode(check, s) == Some(key)
        <==> key < TWO_256 && (s == Address(check, key) || s == Dashed(Address(check, key)))
  {
    if key < TWO_256 {
      SameAfterPrefix(check, s, key);
    }
    if key < TWO_256 && HasPrefix(s) && s[5..] == Address(check, key)[5..] {
      NodeDecodesAddress(check, s, key);
    }
    if NodeDecode(check, s) == Some(key) {
      NodeDecodesOnlyAddresses(check, s, key);
    }
  }

  lemma SameAfterPrefix(check: nat -> nat, s: string, key: nat)
    ensures HasPrefix(s) && s[5..] == Address(check, key)[5..]
       <==> s == Address(check, key) || s == Dashed(Address(check, key))
  {
    var a := Address(check, key);
    assert a == a[..4] + [a[4]] + a[5..] && a[..4] == "fpsc" && a[4] == '_';
    assert Dashed(a) == a[..4] + ['-'] + a[5..];
    if HasPrefix(s) {
      assert s == s[..4] + [s[4]] + s[5..];
    }
  }

  lemma NodeDecodesAddress(check: nat -> nat, s: string, key: nat)
    requires key < TWO_256 && HasPrefix(s) && s[5..] == Address(check, key)[5..]
    ensures NodeDecode(check, s) == Some(key)
  {
    var n := Packed(check, key);
    var ds := ToBase(32, n, GROUPS);
    AddressDigits(check, key);
    assert (PREFIX + Text(ds))[5..] == Text(ds);
    NodeDecodesText(check, s, ds, n, key);
  }

  lemma NodeDecodesText(check: nat -> nat, s: string, ds: seq<nat>, n: nat, key: nat)
    requires HasPrefix(s) && Digits(32, ds) && |ds| == GROUPS && ds[0] < 2 && s[5..] == Text(ds)
    requires key < TWO_256 && n == Packed(check, key) && FromBase(32, ds) == n
    ensures NodeDecode(check, s) == Some(key)
  {
    ValuesText(ds);
    assert s[5] == s[5..][0] == AccountEncode(ds[0]);
    Unpack(check, key);
  }

  lemma NodeDecodesOnlyAddresses(check: nat -> nat, s: string, key: nat)
    requires NodeDecode(check, s) == Some(key)
    ensures key < TWO_256 && HasPrefix(s) && s[5..] == Address(check, key)[5..]
  {
    var text := s[5..];
    TextValues(text);
    var ds := Values(text).value;
    var n := FromBase(32, ds);
    assert text[0] == s[5];
    LeadingGroup(ds);
    assert n / TWO_40 < TWO_256;
    assert n == Packed(check, key);
    ToFrom(32, ds);
    assert (PREFIX + Text(ds))[5..] == Text(ds);
  }

  // --------------------------------------------------------- the script's decoder

  /** `replace(b"fpsc_", b"")` */
  function RemovePrefixes(s: string): string {
    if |s| >= 5 && s[..5] == PREFIX then RemovePrefixes(s[5..])
    else if s == [] then []
    else [s[0]] + RemovePrefixes(s[1..])
  }

  /** `translate(tbl)`: from the account alphabet to that of RFC 4648, other characters unchanged. */
  function Translate(s: string): string {
    seq(|s|, i requires 0 <= i < |s| =>
      if AccountDecode(s[i]) < 32 then Base32Char(AccountDecode(s[i])) else s[i])
  }

  /** `rstrip(b"=")` */
  function StripPadding(s: string): string {
    if s != [] && s[|s| - 1] == '=' then StripPadding(s[..|s| - 1]) else s
  }

  function Base32Values(s: string): Option<seq<nat>> {
    if forall i :: 0 <= i < |s| ==> Base32Value(s[i]).Some?
    then Some(seq(|s|, i requires 0 <= i < |s| => Base32Value(s[i]).value))
    else None
  }

  /** The five bytes of one group of digits. */
  function Quantum(vs: seq<nat>): (bytes: seq<nat>)
    ensures |bytes| == QUANTUM
  {
    ToBaseShape(256, FromBase(32, vs), QUANTUM);
    ToBase(256, FromBase(32, vs), QUANTUM)
  }

  /** Whole groups: eight digits make five bytes. */
  function Quanta(vs: seq<nat>): seq<nat> {
    if |vs| < 8 then [] else Quantum(vs[..8]) + Quanta(vs[8..])
  }

  /** How many bytes a last group with that much padding stands for, if such padding is allowed. */
  function Leftover(padding: nat): Option<nat> {
    match padding
    case 0 => Some(0)
    case 1 => Some(4)
    case 3 => Some(3)
    case 4 => Some(2)
    case 6 => Some(1)
    case _ => None
  }

  /** `b32decode`: whole groups, then the last one filled up with zero bits and cut to its bytes. */
  function Base32Decode(s: string): Option<seq<nat>> {
    var body := StripPadding(s);
    var padding := |s| - |body|;
    match Base32Values(body)
    case None => None
    case Some(vs) =>
      if |s| % 8 != 0 || padding < 0 || Leftover(padding).None? then None
      else
        var whole := |vs| - |vs| % 8;
        Some(Quanta(vs[..whole])
             + Quantum(vs[whole..] + seq(padding, _ => 0))[..Leftover(padding).value])
  }

  /** The account value the script writes for an address. */
  function ScriptDecode(s: string): Option<nat> {
    match Base32Decode(Translate(RemovePrefixes(s)) + "====")
    case None => None
    case Some(bytes) => Some((FromBase(256, bytes) / TWO_36) % TWO_256)
  }

  function Base32Text(ds: seq<nat>): string
    requires Digits(32, ds)
  {
    seq(|ds|, i requires 0 <= i < |ds| => Base32Char(ds[i]))
  }

  lemma Base32Inverse(v: nat)
    requires v < 32
    ensures Base32Value(Base32Char(v)) == Some(v) && Base32Char(v) != '='
  {
  }

  lemma Base32ValuesText(ds: seq<nat>)
    requires Digits(32, ds)
    ensures Base32Values(Base32Text(ds)) == Some(ds)
  {
    forall i | 0 <= i < |ds|
      ensures Base32Value(Base32Text(ds)[i]) == Some(ds[i])
    {
      Base32Inverse(ds[i]);
    }
    assert Base32Values(Base32Text(ds)).value == ds;
  }

  lemma TranslateText(ds: seq<nat>)
    requires Digits(32, ds)
    ensures Translate(Text(ds)) == Base32Text(ds)
  {
  }

  lemma {:induction false} NoPrefixInside(s: string)
    requires '_' !in s
    ensures RemovePrefixes(s) == s
  {
    assert |s| >= 5 ==> s[..5][4] == s[4] && s[4] != PREFIX[4];
    if s != [] {
      NoPrefixInside(s[1..]);
    }
  }

  lemma RemovesThePrefix(ds: seq<nat>)
    requires Digits(32, ds)
    ensures RemovePrefixes(PREFIX + Text(ds)) == Text(ds)
  {
    var s := PREFIX + Text(ds);
    assert s[..5] == PREFIX && s[5..] == Text(ds);
    forall i | 0 <= i < |ds|
      ensures Text(ds)[i] != '_'
    {
      AlphabetInverse(ds[i], '_');
    }
    NoPrefixInside(Text(ds));
  }

  lemma StripsOne(s: string)
    ensures StripPadding(s + "=") == StripPadding(s)
  {
  }

  lemma StripsFour(s: string)
    requires s != [] && s[|s| - 1] != '='
    ensures StripPadding(s + "====") == s
  {
    StripsOne(s);
    StripsOne(s + "=");
    StripsOne(s + "==");
    StripsOne(s + "===");
    assert s + "=" + "=" == s + "==" && s + "==" + "=" == s + "===" && s + "===" + "=" == s + "====";
  }

  // ----------------------------------------------------------------- the bits

  lemma PowerOfQuantum()
    ensures Pow(32, 8) == TWO_40 && Pow(256, 5) == TWO_40 && Pow(32, 4) == 0x10_0000 && Pow(256, 2) == 0x1_0000
  {
  }

  lemma {:induction false} PowersAgree(m: nat)
    ensures Pow(256, 5 * m) == Pow(32, 8 * m)
  {
    if m == 0 {
    } else {
      PowersAgree(m - 1);
      PowAdd(256, 5, 5 * (m - 1));
      PowAdd(32, 8, 8 * (m - 1));
      PowerOfQuantum();
    }
  }

  /** A group of at most eight digits is the same number as its five bytes. */
  lemma OneQuantum(vs: seq<nat>)
    requires Digits(32, vs) && |vs| <= 8
    ensures |Quantum(vs)| == QUANTUM && FromBase(256, Quantum(vs)) == FromBase(32, vs)
  {
    FromBaseBound(32, vs);
    PowAdd(32, |vs|, 8 - |vs|);
    PowPositive(32, 8 - |vs|);
    Grows(Pow(32, |vs|), Pow(32, 8 - |vs|));
    PowerOfQuantum();
    ToBaseShape(256, FromBase(32, vs), QUANTUM);
    FromTo(256, FromBase(32, vs), QUANTUM);
  }

  lemma Grows(x: nat, y: nat)
    requires y > 0
    ensures x <= x * y
  {
  }

  lemma {:induction false} WholeQuanta(vs: seq<nat>, m: nat)
    requires Digits(32, vs) && |vs| == 8 * m
    ensures |Quanta(vs)| == 5 * m && FromBase(256, Quanta(vs)) == FromBase(32, vs)
  {
    if m == 0 {
    } else {
      var first, rest := vs[..8], vs[8..];
      OneQuantum(first);
      WholeQuanta(rest, m - 1);
      FromBaseAppend(32, first, rest);
      FromBaseAppend(256, Quantum(first), Quanta(rest));
      PowersAgree(m - 1);
      assert first + rest == vs;
    }
  }

  /** Keeping two of five bytes drops 24 bits. */
  lemma TwoBytes(n: nat)
    requires n < TWO_40
    ensures |ToBase(256, n, QUANTUM)| == 5 && FromBase(256, ToBase(256, n, QUANTUM)[..2]) == n / 0x100_0000
  {
    ToBaseShape(256, n, QUANTUM);
    var ds := ToBase(256, n, 5);
    var head := ToBase(256, n / 256 / 256 / 256, 2);
    ToBaseShape(256, n / 256 / 256 / 256, 2);
    assert ds == head + [n / 256 / 256 % 256] + [n / 256 % 256] + [n % 256];
    assert ds[..2] == head;
    assert n / 256 / 256 / 256 == n / 0x100_0000;
    PowerOfQuantum();
    FromTo(256, n / 0x100_0000, 2);
  }

  /** What the decoder makes of 60 digits and four characters of padding. */
  lemma PaddedBytes(ds: seq<nat>)
    requires Digits(32, ds) && |ds| == GROUPS
    ensures Base32Decode(Base32Text(ds) + "====") == Some(Quanta(ds[..56]) + Quantum(ds[56..] + [0, 0, 0, 0])[..2])
  {
    var s := Base32Text(ds);
    Base32Inverse(ds[|ds| - 1]);
    StripsFour(s);
    Base32ValuesText(ds);
    DecodesStripped(s + "====", s, ds);
  }

  lemma DecodesStripped(s: string, body: string, vs: seq<nat>)
    requires StripPadding(s) == body && Base32Values(body) == Some(vs) && |s| == 64 && |vs| == |body| == 60
    ensures Base32Decode(s) == Some(Quanta(vs[..56]) + Quantum(vs[56..] + [0, 0, 0, 0])[..2])
  {
    var padding, whole := |s| - |body|, |vs| - |vs| % 8;
    assert padding == 4 && whole == 56;
    assert Leftover(padding) == Some(2) && |s| % 8 == 0;
    assert seq(padding, _ => 0) == [0, 0, 0, 0];
  }

  lemma TailNumber(tail: seq<nat>)
    requires Digits(32, tail) && |tail| == 4
    ensures FromBase(32, tail) < 0x10_0000
    ensures FromBase(32, tail + [0, 0, 0, 0]) == FromBase(32, tail) * 0x10_0000
  {
    FromBaseBound(32, tail);
    PowerOfQuantum();
    FromBaseAppend(32, tail, [0, 0, 0, 0]);
    FourZeros();
  }

  lemma DropBits(n: nat)
    ensures n * 0x10_0000 / 0x100_0000 == n / 16
  {
  }

  /** The filled-up last group, cut to two bytes, is the number of its four digits without four bits. */
  lemma LastGroup(tail: seq<nat>)
    requires Digits(32, tail) && |tail| == 4
    ensures FromBase(256, Quantum(tail + [0, 0, 0, 0])[..2]) == FromBase(32, tail) / 16
    ensures FromBase(32, tail) < 0x10_0000
  {
    TailNumber(tail);
    var n := FromBase(32, tail);
    TwoBytes(n * 0x10_0000);
    DropBits(n);
  }

  lemma FourZeros()
    ensures FromBase(32, [0, 0, 0, 0]) == 0
  {
    assert [0, 0, 0, 0][..3] == [0, 0, 0] && [0, 0, 0][..2] == [0, 0] && [0, 0][..1] == [0];
  }

  lemma Sixteenth(whole: nat, tail: nat)
    ensures (whole * 0x10_0000 + tail) / 16 == whole * 0x1_0000 + tail / 16
  {
  }

  /** Appending four digits, and appending two bytes. */
  lemma Appended(digits: seq<nat>, tail: seq<nat>, bytes: seq<nat>, last: seq<nat>)
    requires |tail| == 4 && |last| == 2
    ensures FromBase(32, digits + tail) == FromBase(32, digits) * 0x10_0000 + FromBase(32, tail)
    ensures FromBase(256, bytes + last) == FromBase(256, bytes) * 0x1_0000 + FromBase(256, last)
  {
    PowerOfQuantum();
    FromBaseAppend(32, digits, tail);
    FromBaseAppend(256, bytes, last);
  }

  lemma PaddedNumber(whole: seq<nat>, tail: seq<nat>, bytes: seq<nat>, last: seq<nat>)
    requires |tail| == 4 && |last| == 2
    requires FromBase(256, bytes) == FromBase(32, whole) && FromBase(256, last) == FromBase(32, tail) / 16
    ensures FromBase(256, bytes + last) == FromBase(32, whole + tail) / 16
  {
    Appended(whole, tail, bytes, last);
    Sixteenth(FromBase(32, whole), FromBase(32, tail));
  }

  lemma PaddedValue(whole: seq<nat>, tail: seq<nat>)
    requires Digits(32, whole) && |whole| == 56 && Digits(32, tail) && |tail| == 4
    ensures FromBase(256, Quanta(whole) + Quantum(tail + [0, 0, 0, 0])[..2]) == FromBase(32, whole + tail) / 16
  {
    var bytes, last := Quanta(whole), Quantum(tail + [0, 0, 0, 0])[..2];
    assert FromBase(256, bytes) == FromBase(32, whole) by { WholeQuanta(whole, 7); }
    assert FromBase(256, last) == FromBase(32, tail) / 16 by { LastGroup(tail); }
    PaddedNumber(whole, tail, bytes, last);
  }

  lemma PaddedParts(whole: seq<nat>, tail: seq<nat>)
    requires Digits(32, whole) && |whole| == 56 && Digits(32, tail) && |tail| == 4
    ensures Digits(32, whole + tail)
    ensures var r := Base32Decode(Base32Text(whole + tail) + "====");
            r.Some? && FromBase(256, r.value) == FromBase(32, whole + tail) / 16
  {
    var ds := whole + tail;
    assert ds[..56] == whole && ds[56..] == tail;
    PaddedBytes(ds);
    PaddedValue(whole, tail);
  }

  /** Four digits of padding: the value loses its four lowest bits. */
  lemma PaddedDecode(ds: seq<nat>)
    requires Digits(32, ds) && |ds| == GROUPS
    ensures var r := Base32Decode(Base32Text(ds) + "====");
            r.Some? && FromBase(256, r.value) == FromBase(32, ds) / 16
  {
    PaddedParts(ds[..56], ds[56..]);
    assert ds[..56] + ds[56..] == ds;
  }

  /**
  On every address over the account alphabet the script computes bits 40 to 295
  of the 300: the padding drops four bits and the shift another 36.
  */
  lemma ScriptDecodesText(ds: seq<nat>)
    requires Digits(32, ds) && |ds| == GROUPS
    ensures ScriptDecode(PREFIX + Text(ds)) == Some((FromBase(32, ds) / TWO_40) % TWO_256)
  {
    RemovesThePrefix(ds);
    TranslateText(ds);
    PaddedDecode(ds);
    var n := FromBase(32, ds);
    assert n / 16 / TWO_36 == n / TWO_40;
  }

  /** An accepted text with an underscore is the address of its key. */
  lemma AcceptedIsAddress(check: nat -> nat, s: string, key: nat)
    requires NodeDecode(check, s) == Some(key) && s[4] == '_'
    ensures s == Address(check, key) && key < TWO_256
  {
    NodeDecodeExact(check, s, key);
    assert Dashed(Address(check, key))[4] == '-';
  }

  /** Whatever address the node accepts with an underscore, the script reads the same key from it. */
  lemma ScriptAgreesWithNode(check: nat -> nat, s: string, key: nat)
    requires NodeDecode(check, s) == Some(key) && s[4] == '_'
    ensures ScriptDecode(s) == Some(key)
  {
    AcceptedIsAddress(check, s, key);
    ScriptInvertsEncoder(check, key);
  }

  /** The script inverts the node's encoder, whatever the checksum. */
  lemma ScriptInvertsEncoder(check: nat -> nat, key: nat)
    requires key < TWO_256
    ensures ScriptDecode(Address(check, key)) == Some(key)
  {
    var s := Address(check, key);
    AddressDigits(check, key);
    ScriptDecodesText(ToBase(32, Packed(check, key), GROUPS));
    Unpack(check, key);
  }

  // ------------------------------------------------------- what the script accepts

  /** A digit of either alphabet: translation leaves the other characters as they are. */
  predicate Readable(c: char) {
    c in ALPHABET || 'A' <= c <= 'Z' || c == '2'
  }

  lemma DigitsAreInAlphabet(c: char)
    ensures AccountDecode(c) < 32 <==> c in ALPHABET
  {
    AlphabetInverse(AccountDecode(c), c);
    if c in ALPHABET {
      var v :| 0 <= v < |ALPHABET| && ALPHABET[v] == c;
      AlphabetInverse(v, c);
    }
  }

  lemma ReadableIsRead(s: string, i: nat)
    requires i < |s|
    ensures Base32Value(Translate(s)[i]).Some? <==> Readable(s[i])
    ensures Translate(s)[i] == '=' <==> s[i] == '='
  {
    DigitsAreInAlphabet(s[i]);
    if AccountDecode(s[i]) < 32 {
      Base32Inverse(AccountDecode(s[i]));
    }
  }

  lemma DecodesIff(s: string, body: string)
    requires StripPadding(s) == body && |body| <= |s|
    ensures Base32Decode(s).Some? <==> |s| % 8 == 0 && Leftover(|s| - |body|).Some? && Base32Values(body).Some?
  {
  }

  lemma UnpaddedIsReadIff(t: string)
    requires '=' !in t && t != []
    ensures Base32Decode(t + "====").Some? <==> |t| % 8 == 4 && forall i :: 0 <= i < |t| ==> Base32Value(t[i]).Some?
  {
    StripsFour(t);
    DecodesIff(t + "====", t);
  }

  /** Text without padding of its own decodes exactly if each character is a digit and the last group is half full. */
  lemma PaddedIsReadIff(s: string)
    requires '=' !in s
    ensures Base32Decode(Translate(s) + "====").Some? <==> |s| % 8 == 4 && forall i :: 0 <= i < |s| ==> Readable(s[i])
  {
    forall i | 0 <= i < |s|
      ensures (Base32Value(Translate(s)[i]).Some? <==> Readable(s[i])) && Translate(s)[i] != '='
    {
      ReadableIsRead(s, i);
    }
    if s == [] {
      assert |Translate(s) + "===="| % 8 != 0;
    } else {
      UnpaddedIsReadIff(Translate(s));
    }
  }

  /** So the script, unlike the node, also takes capital letters and 2 for digits, and checks no checksum. */
  lemma ScriptAcceptsIff(s: string)
    requires '=' !in RemovePrefixes(s)
    ensures ScriptDecode(s).Some?
       <==> |RemovePrefixes(s)| % 8 == 4 && forall c :: c in RemovePrefixes(s) ==> Readable(c)
  {
    PaddedIsReadIff(RemovePrefixes(s));
  }
}
