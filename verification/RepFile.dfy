/**
The representative-weight file: written by ci/record_rep_weights.py as a 16-byte
height and 48-byte records, read by `node::get_bootstrap_weights` in
futurehead/node/node.cpp.  Bytes are numbers below 256, hexadecimal digits numbers
below 16.
*/
module RepFile {
  import opened Common
  import opened Radix
  import opened AccountCodec
  import opened RepSelection

  const TWO_64 := 0x1_0000_0000_0000_0000

  // ------------------------------------------------------------ fixed-width bytes

  /** How many hexadecimal digits a number needs. */
  function HexLength(n: nat): nat {
    if n < 16 then 1 else 1 + HexLength(n / 16)
  }

  /** `"%0<width>X" % n`: padded to the width, longer if need be. */
  function Hex(n: nat, width: nat): seq<nat> {
    ToBase(16, n, if HexLength(n) > width then HexLength(n) else width)
  }

  function Pairs(ds: seq<nat>): seq<nat> {
    if |ds| < 2 then [] else Pairs(ds[..|ds| - 2]) + [ds[|ds| - 2] * 16 + ds[|ds| - 1]]
  }

  /** `unhexlify`: an error on an odd number of digits. */
  function Unhexlify(ds: seq<nat>): Option<seq<nat>> {
    if |ds| % 2 == 1 then None else Some(Pairs(ds))
  }

  lemma {:induction false} HexLengthBound(n: nat, w: nat)
    requires w > 0
    ensures HexLength(n) <= w <==> n < Pow(16, w)
    decreases w
  {
    if w == 1 {
      assert Pow(16, 1) == 16;
    } else {
      var p := Pow(16, w - 1);
      assert Pow(16, w) == 16 * p;
      HexLengthBound(n / 16, w - 1);
      PowPositive(16, w - 1);
      assert n / 16 < p <==> n < 16 * p;
    }
  }

  lemma {:induction false} PowPairs(k: nat)
    ensures Pow(256, k) == Pow(16, 2 * k)
  {
    if k == 0 {
    } else {
      PowPairs(k - 1);
      assert Pow(16, 2 * k) == 16 * (16 * Pow(16, 2 * k - 2));
    }
  }

  lemma {:induction false} PairsOfHex(n: nat, k: nat)
    ensures Pairs(ToBase(16, n, 2 * k)) == ToBase(256, n, k)
    decreases k
  {
    ToBaseShape(16, n, 2 * k);
    if k > 0 {
      var high, mid, low := n / 16 / 16, n / 16 % 16, n % 16;
      PairsOfHex(high, k - 1);
      ToBaseShape(16, high, 2 * k - 2);
      var init := ToBase(16, high, 2 * k - 2);
      assert ToBase(16, n / 16, 2 * k - 1) == init + [mid];
      var ds := init + [mid] + [low];
      assert ToBase(16, n, 2 * k) == ds;
      assert ds[..|ds| - 2] == init && ds[|ds| - 2] == mid && ds[|ds| - 1] == low;
      assert n / 256 == high && n % 256 == mid * 16 + low;
    }
  }

  lemma {:induction false} PairsLength(ds: seq<nat>)
    ensures |Pairs(ds)| == |ds| / 2
  {
    if |ds| >= 2 {
      PairsLength(ds[..|ds| - 2]);
    }
  }

  /** Formatting and unhexlifying gives exactly `k` bytes if and only if the number fits in them. */
  lemma FixedWidth(n: nat, k: nat)
    requires k > 0
    ensures n < Pow(256, k) ==> Unhexlify(Hex(n, 2 * k)) == Some(ToBase(256, n, k))
    ensures (Unhexlify(Hex(n, 2 * k)).Some? && |Unhexlify(Hex(n, 2 * k)).value| == k) <==> n < Pow(256, k)
  {
    PowPairs(k);
    HexLengthBound(n, 2 * k);
    ToBaseShape(16, n, HexLength(n));
    ToBaseShape(16, n, 2 * k);
    ToBaseShape(256, n, k);
    PairsOfHex(n, k);
    PairsLength(Hex(n, 2 * k));
  }

  // --------------------------------------------------------------------- the file

  const HEIGHT_BYTES: nat := 16
  const ACCOUNT_BYTES: nat := 32
  const WEIGHT_BYTES: nat := 16

  function Join(x: Option<seq<nat>>, y: Option<seq<nat>>): Option<seq<nat>> {
    if x.Some? && y.Some? then Some(x.value + y.value) else None
  }

  /** The bytes of an account value and a weight. */
  function RecordFor(key: nat, weight: nat): Option<seq<nat>> {
    Join(Unhexlify(Hex(key, 2 * ACCOUNT_BYTES)), Unhexlify(Hex(weight, 2 * WEIGHT_BYTES)))
  }

  /** One record, or nothing if a step of the script raises. */
  function RecordOf(r: Rep): Option<seq<nat>> {
    match ScriptDecode(r.account)
    case None => None
    case Some(key) => RecordFor(key, r.weight)
  }

  function RecordsOf(encode: Rep -> Option<seq<nat>>, reps: seq<Rep>): Option<seq<nat>> {
    if reps == [] then Some([]) else Join(RecordsOf(encode, reps[..|reps| - 1]), encode(reps[|reps| - 1]))
  }

  /** A file with records of the given encoding. */
  function FileWith(encode: Rep -> Option<seq<nat>>, height: nat, reps: seq<Rep>): Option<seq<nat>> {
    Join(Unhexlify(Hex(height, 2 * HEIGHT_BYTES)), RecordsOf(encode, reps))
  }

  function FileOf(height: nat, reps: seq<Rep>): Option<seq<nat>> {
    FileWith(RecordOf, height, reps)
  }

  /** `max(0, count - cutoff)` */
  function Height(blockCount: int, cutoff: int): (h: nat)
    ensures h + cutoff == blockCount || (h == 0 && blockCount <= cutoff)
  {
    if blockCount - cutoff > 0 then blockCount - cutoff else 0
  }

  /** What the script writes for a reply, before it is turned into bytes. */
  function Written(reps: seq<Rep>, limit: real): seq<Rep> {
    Select(Sort(reps), Threshold(Total(reps), limit), 0)
  }

  datatype Output = Output(file: seq<nat>, count: nat, total: nat)

  /** The script after the replies: the file, or nothing if it ends in an exception. */
  method RecordWeights(reps: seq<Rep>, blockCount: int, cutoff: int, limit: real) returns (out: Option<Output>)
    ensures out == match FileOf(Height(blockCount, cutoff), Written(reps, limit))
                   case None => None
                   case Some(file) => Some(Output(file, |Written(reps, limit)|, Total(Written(reps, limit))))
    ensures out.Some? && 0.0 <= limit <= 1.0 ==> Shortfall(limit, Total(reps), out.value.total) < UNIT as real
  {
    if 0.0 <= limit <= 1.0 {
      CoverageBound(reps, limit, Threshold(Total(reps), limit), Total(Written(reps, limit)));
    }
    var height := if blockCount - cutoff > 0 then blockCount - cutoff else 0;
    var sorted := Sort(reps);
    SortFacts(reps);
    SameTotal(reps, sorted);
    var supply := 0;
    for i := 0 to |sorted|
      invariant supply == Total(sorted[..i])
    {
      assert sorted[..i + 1][..i] == sorted[..i];
      supply := supply + sorted[i].weight;
    }
    assert sorted[..|sorted|] == sorted;
    var threshold := Threshold(supply, limit);
    out := WriteFile(RecordOf, sorted, height, threshold);
  }

  /** `args.limit`: the default is a number, but what is given on the command line stays text. */
  datatype Limit = Share(share: real) | Given(text: string)

  const DEFAULT_LIMIT: real := 0.99

  function ParsedLimit(option: Option<string>): Limit {
    if option.Some? then Given(option.value) else Share(DEFAULT_LIMIT)
  }

  /**
  The script with its `--limit` option: a number times a text raises, so it writes a file
  if and only if the option is not given and every record and the height can be written.
  */
  method RunScript(reps: seq<Rep>, blockCount: int, cutoff: int, option: Option<string>) returns (out: Option<Output>)
    ensures out.Some? <==> option.None? && FileOf(Height(blockCount, cutoff), Written(reps, 0.99)).Some?
    ensures out.Some? ==> Some(out.value.file) == FileOf(Height(blockCount, cutoff), Written(reps, 0.99))
  {
    match ParsedLimit(option)
    case Given(_) => out := None;
    case Share(share) => out := RecordWeights(reps, blockCount, cutoff, share);
  }

  /** What is still to be written after one more record. */
  function Rest(sorted: seq<Rep>, threshold: int, count: nat, total: nat, more: bool): seq<Rep>
    requires count <= |sorted|
  {
    if more then Select(sorted[count..], threshold, total) else []
  }

  lemma SelectStep(sorted: seq<Rep>, threshold: int, count: nat, total: nat)
    requires count < |sorted| && sorted[count].weight != 0
    ensures var next := total + sorted[count].weight;
            sorted[..count] + Rest(sorted, threshold, count, total, true)
              == sorted[..count + 1] + Rest(sorted, threshold, count + 1, next, next < threshold)
  {
  }

  lemma {:induction false} RecordFails(encode: Rep -> Option<seq<nat>>, reps: seq<Rep>, k: nat)
    requires k < |reps| && encode(reps[k]).None?
    ensures RecordsOf(encode, reps).None?
  {
    if k < |reps| - 1 {
      RecordFails(encode, reps[..|reps| - 1], k);
    }
  }

  lemma Extended(encode: Rep -> Option<seq<nat>>, sorted: seq<Rep>, count: nat)
    requires count < |sorted|
    ensures Total(sorted[..count + 1]) == Total(sorted[..count]) + sorted[count].weight
    ensures RecordsOf(encode, sorted[..count + 1]) == Join(RecordsOf(encode, sorted[..count]), encode(sorted[count]))
  {
    assert sorted[..count + 1][..count] == sorted[..count];
  }

  /** Where the writing loop stands: `count` records are written, and the rest of the selection is to come. */
  ghost predicate Underway(encode: Rep -> Option<seq<nat>>, sorted: seq<Rep>, threshold: int,
                           body: Option<seq<nat>>, count: nat, total: nat, more: bool)
  {
    && count <= |sorted| && total == Total(sorted[..count]) && body == RecordsOf(encode, sorted[..count])
    && Select(sorted, threshold, 0) == sorted[..count] + Rest(sorted, threshold, count, total, more)
  }

  lemma WriteStep(encode: Rep -> Option<seq<nat>>, sorted: seq<Rep>, threshold: int,
                  body: Option<seq<nat>>, count: nat, total: nat)
    requires Underway(encode, sorted, threshold, body, count, total, true) && count < |sorted| && sorted[count].weight != 0
    ensures var next := total + sorted[count].weight;
            Underway(encode, sorted, threshold, Join(body, encode(sorted[count])), count + 1, next, next < threshold)
  {
    SelectStep(sorted, threshold, count, total);
    Extended(encode, sorted, count);
  }

  /** A record that cannot be written spoils the whole selection. */
  lemma WriteFails(encode: Rep -> Option<seq<nat>>, sorted: seq<Rep>, threshold: int, count: nat, total: nat, more: bool)
    requires Underway(encode, sorted, threshold, None, count, total, more) && count > 0
    requires encode(sorted[count - 1]).None?
    ensures RecordsOf(encode, Select(sorted, threshold, 0)) == None
  {
    assert Select(sorted, threshold, 0)[count - 1] == sorted[count - 1];
    RecordFails(encode, Select(sorted, threshold, 0), count - 1);
  }

  /** The writing loop. */
  method WriteRecords(encode: Rep -> Option<seq<nat>>, sorted: seq<Rep>, threshold: int)
    returns (body: Option<seq<nat>>, count: nat, total: nat)
    ensures var written := Select(sorted, threshold, 0);
            body == RecordsOf(encode, written) && (body.Some? ==> count == |written| && total == Total(written))
  {
    body, total, count := Some([]), 0, 0;
    var more := true;
    assert sorted[..0] == [] && sorted[0..] == sorted;
    while more && count < |sorted|
      invariant body.Some? && Underway(encode, sorted, threshold, body, count, total, more)
      decreases |sorted| - count, more
    {
      if sorted[count].weight == 0 {
        more := false;
      } else {
        WriteStep(encode, sorted, threshold, body, count, total);
        body := Join(body, encode(sorted[count]));
        total := total + sorted[count].weight;
        more := total < threshold;
        count := count + 1;
        if body == None {
          WriteFails(encode, sorted, threshold, count, total, more);
          return;
        }
      }
    }
    assert Select(sorted, threshold, 0) == sorted[..count];
  }

  method WriteFile(encode: Rep -> Option<seq<nat>>, sorted: seq<Rep>, height: nat, threshold: int)
    returns (out: Option<Output>)
    ensures var written := Select(sorted, threshold, 0);
            out == match FileWith(encode, height, written)
                   case None => None
                   case Some(file) => Some(Output(file, |written|, Total(written)))
  {
    var header := Unhexlify(Hex(height, 2 * HEIGHT_BYTES));
    var body, count, total := WriteRecords(encode, sorted, threshold);
    out := if header.None? || body.None? then None else Some(Output(header.value + body.value, count, total));
  }

  // ------------------------------------------------------------------- the reader

  /** The record at the start of a stream. */
  function FirstRecord(bytes: seq<nat>): (nat, nat)
    requires |bytes| >= 48
  {
    (FromBase(256, bytes[..32]), FromBase(256, bytes[32..48]))
  }

  /** The 48-byte records of a stream; a shorter rest is ignored. */
  function Parse(bytes: seq<nat>): seq<(nat, nat)> {
    if |bytes| < 48 then [] else [FirstRecord(bytes)] + Parse(bytes[48..])
  }

  /** Later records replace earlier ones of the same account. */
  function Table(rs: seq<(nat, nat)>): map<nat, nat> {
    if rs == [] then map[] else Table(rs[..|rs| - 1])[rs[|rs| - 1].0 := rs[|rs| - 1].1]
  }

  lemma ParseStep(buffer: seq<nat>, at: nat, done: seq<(nat, nat)>)
    requires at + 48 <= |buffer|
    ensures done + Parse(buffer[at..])
         == done + [(FromBase(256, buffer[at..at + 32]), FromBase(256, buffer[at + 32..at + 48]))] + Parse(buffer[at + 48..])
  {
    var rest := buffer[at..];
    assert rest[..32] == buffer[at..at + 32] && rest[32..48] == buffer[at + 32..at + 48];
    assert rest[48..] == buffer[at + 48..];
  }

  /** `node::get_bootstrap_weights` */
  method GetBootstrapWeights(buffer: seq<nat>) returns (maxBlocks: nat, weights: map<nat, nat>)
    ensures |buffer| < 16 ==> maxBlocks == 0 && weights == map[]
    ensures |buffer| >= 16 ==>
              maxBlocks == FromBase(256, buffer[..16]) % TWO_64 && weights == Table(Parse(buffer[16..]))
  {
    weights := map[];
    maxBlocks := 0;
    if |buffer| >= 16 {
      maxBlocks := FromBase(256, buffer[..16]) % TWO_64;
      var at := 16;
      ghost var done: seq<(nat, nat)> := [];
      while true
        invariant 16 <= at <= |buffer|
        invariant Parse(buffer[16..]) == done + Parse(buffer[at..])
        invariant weights == Table(done)
        decreases |buffer| - at
      {
        if |buffer| - at < 32 {
          break;
        }
        var account := FromBase(256, buffer[at..at + 32]);
        if |buffer| - at - 32 < 16 {
          break;
        }
        var weight := FromBase(256, buffer[at + 32..at + 48]);
        weights := weights[account := weight];
        ParseStep(buffer, at, done);
        done := done + [(account, weight)];
        at := at + 48;
      }
      assert Parse(buffer[at..]) == [];
      assert done + [] == done;
    }
  }

  /** The account values and weights of a list of representatives. */
  function Entries(reps: seq<Rep>): seq<(nat, nat)> {
    EntriesBy(ScriptKey, reps)
  }

  function EntriesBy(key: Rep -> nat, reps: seq<Rep>): seq<(nat, nat)> {
    if reps == [] then []
    else EntriesBy(key, reps[..|reps| - 1]) + [(key(reps[|reps| - 1]), reps[|reps| - 1].weight)]
  }

  /** The account value written for a representative. */
  function ScriptKey(r: Rep): nat {
    match ScriptDecode(r.account)
    case None => 0
    case Some(key) => key
  }

  predicate Fits(reps: seq<Rep>) {
    forall i :: 0 <= i < |reps| ==> reps[i].weight < TWO_128
  }

  lemma ByteWidths()
    ensures Pow(256, 16) == TWO_128 && Pow(256, 32) == TWO_256
  {
    PowAdd(256, 4, 4);
    PowAdd(256, 8, 8);
    PowAdd(256, 16, 16);
    assert Pow(256, 4) == 0x1_0000_0000;
  }

  /** A record of a weight below 2^128 is 48 bytes that read back as its account and weight. */
  lemma RecordRoundTrip(key: nat, weight: nat)
    requires key < TWO_256 && weight < TWO_128
    ensures RecordFor(key, weight).Some? && |RecordFor(key, weight).value| == 48
    ensures Parse(RecordFor(key, weight).value) == [(key, weight)]
  {
    ByteWidths();
    FixedWidth(key, ACCOUNT_BYTES);
    FixedWidth(weight, WEIGHT_BYTES);
    FromTo(256, key, ACCOUNT_BYTES);
    FromTo(256, weight, WEIGHT_BYTES);
    var account, amount := ToBase(256, key, ACCOUNT_BYTES), ToBase(256, weight, WEIGHT_BYTES);
    ToBaseShape(256, key, ACCOUNT_BYTES);
    ToBaseShape(256, weight, WEIGHT_BYTES);
    ParseOne(account, amount);
  }

  lemma ParseOne(account: seq<nat>, amount: seq<nat>)
    requires |account| == 32 && |amount| == 16
    ensures Parse(account + amount) == [(FromBase(256, account), FromBase(256, amount))]
  {
    var bytes := account + amount;
    assert bytes[..32] == account && bytes[32..48] == amount && bytes[48..] == [];
  }

  lemma FirstRecordAppend(xs: seq<nat>, ys: seq<nat>)
    requires |xs| >= 48
    ensures FirstRecord(xs + ys) == FirstRecord(xs)
  {
    assert (xs + ys)[..32] == xs[..32] && (xs + ys)[32..48] == xs[32..48];
  }

  lemma {:induction false} ParseAppend(xs: seq<nat>, ys: seq<nat>, k: nat)
    requires |xs| == 48 * k
    ensures Parse(xs + ys) == Parse(xs) + Parse(ys)
    decreases k
  {
    if k == 0 {
      assert xs + ys == ys;
    } else {
      var first, rest := [FirstRecord(xs)], xs[48..];
      FirstRecordAppend(xs, ys);
      assert (xs + ys)[48..] == rest + ys;
      ParseAppend(rest, ys, k - 1);
      assert first + (Parse(rest) + Parse(ys)) == first + Parse(rest) + Parse(ys);
    }
  }

  lemma {:induction false} RecordsRoundTrip(reps: seq<Rep>)
    requires Fits(reps) && RecordsOf(RecordOf, reps).Some?
    ensures |RecordsOf(RecordOf, reps).value| == 48 * |reps| && Parse(RecordsOf(RecordOf, reps).value) == Entries(reps)
  {
    if reps == [] {
    } else {
      var init, last := reps[..|reps| - 1], reps[|reps| - 1];
      RecordsRoundTrip(init);
      assert ScriptDecode(last.account).value < TWO_256;
      RecordRoundTrip(ScriptDecode(last.account).value, last.weight);
      ParseAppend(RecordsOf(RecordOf, init).value, RecordOf(last).value, |init|);
    }
  }

  /**
  Every file the script writes for heights and weights below 2^128 is 16 bytes and
  48 for each representative, and reads back as the height and the same ordered
  list of account values and weights.
  */
  lemma FileRoundTrip(height: nat, reps: seq<Rep>)
    requires height < TWO_128 && Fits(reps) && FileOf(height, reps).Some?
    ensures var file := FileOf(height, reps).value;
            && |file| == 16 + 48 * |reps|
            && FromBase(256, file[..16]) == height
            && Parse(file[16..]) == Entries(reps)
  {
    ByteWidths();
    FixedWidth(height, HEIGHT_BYTES);
    FromTo(256, height, HEIGHT_BYTES);
    ToBaseShape(256, height, HEIGHT_BYTES);
    RecordsRoundTrip(reps);
    var file := FileOf(height, reps).value;
    assert file[..16] == ToBase(256, height, HEIGHT_BYTES) && file[16..] == RecordsOf(RecordOf, reps).value;
  }

  /** The table maps an account to the weight of its last record. */
  lemma {:induction false} TableKeepsLast(rs: seq<(nat, nat)>, i: nat)
    requires i < |rs| && forall j :: i < j < |rs| ==> rs[j].0 != rs[i].0
    ensures rs[i].0 in Table(rs) && Table(rs)[rs[i].0] == rs[i].1
  {
    if i == |rs| - 1 {
    } else {
      TableKeepsLast(rs[..|rs| - 1], i);
    }
  }

  predicate DistinctKeys(rs: seq<(nat, nat)>) {
    forall i, j :: 0 <= i < j < |rs| ==> rs[i].0 != rs[j].0
  }

  /** With distinct accounts the node's table holds each record, and nothing else. */
  lemma {:induction false} TableHoldsRecords(rs: seq<(nat, nat)>)
    requires DistinctKeys(rs)
    ensures forall i :: 0 <= i < |rs| ==> rs[i].0 in Table(rs) && Table(rs)[rs[i].0] == rs[i].1
    ensures forall k :: k in Table(rs) ==> exists i :: 0 <= i < |rs| && rs[i].0 == k
  {
    if rs == [] {
    } else {
      var init := rs[..|rs| - 1];
      TableHoldsRecords(init);
      forall k | k in Table(rs)
        ensures exists i :: 0 <= i < |rs| && rs[i].0 == k
      {
        if k in Table(init) {
          var i :| 0 <= i < |init| && init[i].0 == k;
          assert rs[i].0 == k;
        } else {
          assert rs[|rs| - 1].0 == k;
        }
      }
    }
  }

  // ------------------------------------------------------- from the reply to the node

  /** The node accepts the representative's address, written with an underscore as the node writes it. */
  predicate Listed(check: nat -> nat, r: Rep) {
    NodeDecode(check, r.account).Some? && |r.account| == GROUPS + 5 && r.account[4] == '_'
  }

  predicate AllListed(check: nat -> nat, reps: seq<Rep>) {
    forall r :: r in reps ==> Listed(check, r)
  }

  function KeyOf(check: nat -> nat, r: Rep): nat
    requires Listed(check, r)
  {
    NodeDecode(check, r.account).value
  }

  /** The script writes the key the node reads. */
  lemma ScriptWritesKey(check: nat -> nat, r: Rep)
    requires Listed(check, r)
    ensures ScriptKey(r) == KeyOf(check, r) < TWO_256 && ScriptDecode(r.account) == Some(KeyOf(check, r))
  {
    ScriptAgreesWithNode(check, r.account, KeyOf(check, r));
    AcceptedIsAddress(check, r.account, KeyOf(check, r));
  }

  /** Different addresses belong to different keys. */
  lemma KeysDiffer(check: nat -> nat, q: Rep, r: Rep)
    requires Listed(check, q) && Listed(check, r) && q.account != r.account
    ensures KeyOf(check, q) != KeyOf(check, r)
  {
    AcceptedIsAddress(check, q.account, KeyOf(check, q));
    AcceptedIsAddress(check, r.account, KeyOf(check, r));
  }

  lemma {:induction false} EntryOf(key: Rep -> nat, reps: seq<Rep>, i: nat)
    requires i < |reps|
    ensures |EntriesBy(key, reps)| == |reps| && EntriesBy(key, reps)[i] == (key(reps[i]), reps[i].weight)
  {
    var init := reps[..|reps| - 1];
    if init == [] {
      assert EntriesBy(key, init) == [];
    } else {
      EntryOf(key, init, if i < |init| then i else 0);
    }
  }

  lemma EntryAt(check: nat -> nat, reps: seq<Rep>, i: nat)
    requires AllListed(check, reps) && i < |reps|
    ensures |Entries(reps)| == |reps| && Listed(check, reps[i])
    ensures Entries(reps)[i] == (KeyOf(check, reps[i]), reps[i].weight)
  {
    assert reps[i] in reps;
    EntryOf(ScriptKey, reps, i);
    ScriptWritesKey(check, reps[i]);
  }

  /** Every listed representative has a record. */
  lemma {:induction false} RecordsExist(check: nat -> nat, reps: seq<Rep>)
    requires AllListed(check, reps) && Fits(reps)
    ensures RecordsOf(RecordOf, reps).Some?
  {
    if reps == [] {
    } else {
      var init, last := reps[..|reps| - 1], reps[|reps| - 1];
      assert last in reps;
      RecordsExist(check, init);
      ScriptWritesKey(check, last);
      RecordRoundTrip(KeyOf(check, last), last.weight);
    }
  }

  /** The table holds the keys and weights of these representatives, and nothing else. */
  ghost predicate Holds(check: nat -> nat, weights: map<nat, nat>, reps: seq<Rep>)
    requires AllListed(check, reps)
  {
    && (forall r :: r in reps ==> KeyOf(check, r) in weights && weights[KeyOf(check, r)] == r.weight)
    && (forall k :: k in weights ==> exists r :: r in reps && KeyOf(check, r) == k)
  }

  lemma EntriesDiffer(check: nat -> nat, reps: seq<Rep>)
    requires AllListed(check, reps) && DistinctAccounts(reps)
    ensures |Entries(reps)| == |reps| && DistinctKeys(Entries(reps))
  {
    if reps == [] {
      assert Entries(reps) == [];
    } else {
      EntryAt(check, reps, 0);
    }
    forall i, j | 0 <= i < j < |reps|
      ensures Entries(reps)[i].0 != Entries(reps)[j].0
    {
      EntryAt(check, reps, i);
      EntryAt(check, reps, j);
      KeysDiffer(check, reps[i], reps[j]);
    }
  }

  lemma TableHoldsReps(check: nat -> nat, reps: seq<Rep>)
    requires AllListed(check, reps) && DistinctAccounts(reps)
    ensures Holds(check, Table(Entries(reps)), reps)
  {
    var entries := Entries(reps);
    EntriesDiffer(check, reps);
    TableHoldsRecords(entries);
    forall r | r in reps
      ensures KeyOf(check, r) in Table(entries) && Table(entries)[KeyOf(check, r)] == r.weight
    {
      var i :| 0 <= i < |reps| && reps[i] == r;
      EntryAt(check, reps, i);
      assert entries[i].0 in Table(entries);
    }
    forall k | k in Table(entries)
      ensures exists r :: r in reps && KeyOf(check, r) == k
    {
      var i :| 0 <= i < |entries| && entries[i].0 == k;
      EntryAt(check, reps, i);
      assert reps[i] in reps;
    }
  }

  /** The selection of a reply has what the reply has: listed accounts, each once. */
  lemma WrittenIsListed(check: nat -> nat, reps: seq<Rep>, limit: real)
    requires AllListed(check, reps) && DistinctAccounts(reps) && Fits(reps)
    ensures var w := Written(reps, limit); AllListed(check, w) && DistinctAccounts(w) && Fits(w)
  {
    var sorted, w := Sort(reps), Written(reps, limit);
    SortDistinct(reps);
    SelectIsPrefix(sorted, Threshold(Total(reps), limit), 0);
    forall i | 0 <= i < |w|
      ensures w[i] in reps && w[i].weight < TWO_128
    {
      assert sorted[i] in sorted;
      var j :| 0 <= j < |reps| && reps[j] == w[i];
    }
  }

  /**
  End to end: from a reply that lists accounts the node knows, each once, the script writes
  a file, and the node that loads it has the weight of each selected representative under
  its key, and no other entry.
  */
  method ScriptToNode(ghost check: nat -> nat, reps: seq<Rep>, blockCount: int, cutoff: int, limit: real)
    returns (maxBlocks: nat, weights: map<nat, nat>)
    requires AllListed(check, reps) && DistinctAccounts(reps) && Fits(reps) && Height(blockCount, cutoff) < TWO_128
    ensures AllListed(check, Written(reps, limit)) && Holds(check, weights, Written(reps, limit))
    ensures maxBlocks == Height(blockCount, cutoff) % TWO_64
  {
    ghost var height, w := Height(blockCount, cutoff), Written(reps, limit);
    WrittenIsListed(check, reps, limit);
    RecordsExist(check, w);
    ByteWidths();
    FixedWidth(height, HEIGHT_BYTES);
    FileRoundTrip(height, w);
    TableHoldsReps(check, w);
    var out := RecordWeights(reps, blockCount, cutoff, limit);
    maxBlocks, weights := GetBootstrapWeights(out.value.file);
  }
}
