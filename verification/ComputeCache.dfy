/** The per-observation memo of indicator computes, and why its serialized keys never collide. */
module ComputeCache {
  import opened Candles
  import opened InputsJson

  datatype ComputeKey = ComputeKey(symbolId: string, period: Period, indicatorKey: string, from: int, to: int,
                                   inputs: Inputs)

  /** One compute's identity: the order of the inputs' properties is no part of it. */
  ghost predicate SameCompute(a: ComputeKey, b: ComputeKey) {
    && a.symbolId == b.symbolId && a.period == b.period && a.indicatorKey == b.indicatorKey
    && a.from == b.from && a.to == b.to && SameInputs(a.inputs, b.inputs)
  }

  const KEY_SEPARATOR := '\0'

  function PeriodName(p: Period): string {
    match p
    case OneMinute => "1m"
    case FiveMinutes => "5m"
    case FifteenMinutes => "15m"
    case ThirtyMinutes => "30m"
    case OneHour => "1h"
    case FourHours => "4h"
    case OneDay => "1d"
    case OneWeek => "1w"
  }

  function Digit(d: nat): (c: char)
    requires d < 10
    ensures '0' <= c <= '9' && c as int == '0' as int + d
  {
    ('0' as int + d) as char
  }

  function Digits(n: nat): (s: string)
    ensures s != [] && forall i :: 0 <= i < |s| ==> '0' <= s[i] <= '9'
  {
    if n < 10 then [Digit(n)] else Digits(n / 10) + [Digit(n % 10)]
  }

  /** `String(n)` for an integer. */
  function Decimal(n: int): string {
    if n < 0 then "-" + Digits(-n) else Digits(n)
  }

  function Join(fields: seq<string>): string {
    if fields == [] then ""
    else if |fields| == 1 then fields[0]
    else fields[0] + [KEY_SEPARATOR] + Join(fields[1..])
  }

  function Fields(key: ComputeKey): seq<string> {
    [key.symbolId, PeriodName(key.period), key.indicatorKey, Decimal(key.from), Decimal(key.to),
     SerializeInputs(key.inputs)]
  }

  function SerializeComputeKey(key: ComputeKey): string {
    Join(Fields(key))
  }

  /** Symbol ids and indicator keys never hold the separator, and the inputs are a record. */
  ghost predicate Plain(key: ComputeKey) {
    KEY_SEPARATOR !in key.symbolId && KEY_SEPARATOR !in key.indicatorKey && Record(key.inputs)
  }

  // ---- reading a key back ----

  function DigitValue(c: char): nat {
    if '0' as int <= c as int <= '9' as int then c as int - '0' as int else 0
  }

  function Parse(s: string): nat {
    if s == [] then 0 else Parse(s[..|s| - 1]) * 10 + DigitValue(s[|s| - 1])
  }

  function ParseDecimal(s: string): int {
    if s != [] && s[0] == '-' then 0 - Parse(s[1..]) else Parse(s)
  }

  /** The fields of a string joined on the separator. */
  function Split(s: string): (r: seq<string>)
    ensures r != []
  {
    if s == [] then [""]
    else if s[0] == KEY_SEPARATOR then [""] + Split(s[1..])
    else
      var rest := Split(s[1..]);
      [[s[0]] + rest[0]] + rest[1..]
  }

  lemma {:induction false} ParseDigits(n: nat)
    ensures Parse(Digits(n)) == n
  {
    if n >= 10 {
      ParseDigits(n / 10);
      assert Digits(n)[..|Digits(n)| - 1] == Digits(n / 10);
    }
  }

  lemma ParseDecimalBack(n: int)
    ensures ParseDecimal(Decimal(n)) == n
    ensures KEY_SEPARATOR !in Decimal(n)
  {
    hide Digits, Parse;
    if n < 0 {
      assert Decimal(n)[1..] == Digits(-n);
      ParseDigits(-n);
    } else {
      ParseDigits(n);
      assert Digits(n)[0] != '-';
    }
  }

  lemma {:induction false} SplitHead(x: string, rest: string)
    requires KEY_SEPARATOR !in x
    ensures Split(x + [KEY_SEPARATOR] + rest) == [x] + Split(rest)
    ensures Split(x) == [x]
  {
    var s := x + [KEY_SEPARATOR] + rest;
    if x == [] {
      assert s[1..] == rest;
    } else {
      SplitHead(x[1..], rest);
      assert s[1..] == x[1..] + [KEY_SEPARATOR] + rest;
      assert [x[0]] + x[1..] == x;
    }
  }

  /** Splitting gives back the joined fields, when none of them holds the separator. */
  lemma {:induction false} SplitJoin(fields: seq<string>)
    requires fields != [] && forall i :: 0 <= i < |fields| ==> KEY_SEPARATOR !in fields[i]
    ensures Split(Join(fields)) == fields
  {
    if |fields| == 1 {
      SplitHead(fields[0], "");
    } else {
      SplitJoin(fields[1..]);
      SplitHead(fields[0], Join(fields[1..]));
    }
  }

  /** Two computes serialize to one key exactly when they are the same compute. */
  lemma KeysNeverCollide(a: ComputeKey, b: ComputeKey)
    requires Plain(a) && Plain(b)
    ensures SerializeComputeKey(a) == SerializeComputeKey(b) <==> SameCompute(a, b)
  {
    hide Join, Decimal, Split, ParseDecimal, PeriodName, ParsePeriod, SerializeInputs, SameInputs, Record;
    InputsIdentity(a.inputs, b.inputs);
    FieldsReadBack(a);
    FieldsReadBack(b);
    var x, y := Fields(a), Fields(b);
    if SerializeComputeKey(a) == SerializeComputeKey(b) {
      assert x[0] == y[0] && x[1] == y[1] && x[2] == y[2] && x[3] == y[3] && x[4] == y[4] && x[5] == y[5];
    }
    if SameCompute(a, b) {
      assert x == y;
    }
  }

  function ParsePeriod(name: string): Period {
    if name == "1m" then OneMinute
    else if name == "5m" then FiveMinutes
    else if name == "15m" then FifteenMinutes
    else if name == "30m" then ThirtyMinutes
    else if name == "1h" then OneHour
    else if name == "4h" then FourHours
    else if name == "1d" then OneDay
    else OneWeek
  }

  lemma PeriodReadsBack(p: Period)
    ensures ParsePeriod(PeriodName(p)) == p && KEY_SEPARATOR !in PeriodName(p)
  {
  }

  /** A serialized key splits back into its fields, and its numbers and period read back. */
  lemma FieldsReadBack(key: ComputeKey)
    requires Plain(key)
    ensures Split(SerializeComputeKey(key)) == Fields(key)
    ensures ParseDecimal(Fields(key)[3]) == key.from && ParseDecimal(Fields(key)[4]) == key.to
            && ParsePeriod(Fields(key)[1]) == key.period
  {
    hide Join, Decimal, Split, ParseDecimal, PeriodName, ParsePeriod, SerializeInputs, Record;
    InputsPlain(key.inputs);
    ParseDecimalBack(key.from);
    ParseDecimalBack(key.to);
    PeriodReadsBack(key.period);
    SplitJoin(Fields(key));
  }

  // ---- the memo ----

  /** A compute is a pure read: the same compute loads the same value. */
  ghost predicate PureLoad<V(!new)>(load: ComputeKey -> V) {
    forall a, b :: SameCompute(a, b) ==> load(a) == load(b)
  }

  class IndicatorComputeCache<V(!new)> {
    const load: ComputeKey -> V
    var memo: map<string, V>
    /** Every key `load` was invoked for, in order. */
    var loaded: seq<ComputeKey>

    /** Each memoized value is the load of a plain key already loaded, and no compute was loaded twice. */
    ghost predicate Valid()
      reads this
    {
      && PureLoad(load)
      && (forall i :: 0 <= i < |loaded| ==> Plain(loaded[i]))
      && (forall i :: 0 <= i < |loaded| ==>
            SerializeComputeKey(loaded[i]) in memo && memo[SerializeComputeKey(loaded[i])] == load(loaded[i]))
      && (forall k :: k in memo ==> exists i :: 0 <= i < |loaded| && SerializeComputeKey(loaded[i]) == k)
      && (forall i, j :: 0 <= i < j < |loaded| ==> !SameCompute(loaded[i], loaded[j]))
    }

    constructor (load: ComputeKey -> V)
      requires PureLoad(load)
      ensures Valid() && this.load == load && loaded == []
    {
      this.load := load;
      memo, loaded := map[], [];
    }

    /** The memoized compute is the direct compute; each is loaded at most once, whatever order its inputs come in. */
    method Compute(key: ComputeKey) returns (v: V)
      requires Valid() && Plain(key)
      modifies this
      ensures Valid() && v == load(key)
      ensures loaded == if exists k :: k in old(loaded) && SameCompute(k, key) then old(loaded) else old(loaded) + [key]
    {
      hide SerializeComputeKey, Plain, SameCompute;
      var cacheKey := SerializeComputeKey(key);
      forall i | 0 <= i < |loaded| ensures SerializeComputeKey(loaded[i]) == cacheKey <==> SameCompute(loaded[i], key) {
        KeysNeverCollide(loaded[i], key);
      }
      if cacheKey in memo {
        v := memo[cacheKey];
        ghost var i :| 0 <= i < |loaded| && SerializeComputeKey(loaded[i]) == cacheKey;
        assert loaded[i] in loaded;
        return;
      }
      v := load(key);
      memo := memo[cacheKey := v];
      loaded := loaded + [key];
      forall k | k in memo ensures exists i :: 0 <= i < |loaded| && SerializeComputeKey(loaded[i]) == k {
        if k in old(memo) {
          var i :| 0 <= i < |old(loaded)| && SerializeComputeKey(old(loaded)[i]) == k;
          assert loaded[i] == old(loaded)[i];
        } else {
          assert SerializeComputeKey(loaded[|old(loaded)|]) == k;
        }
      }
    }
  }
}
