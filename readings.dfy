/** One successful read cycle: the register block is turned into one
    measurement per mapping element, a synthesized `powerTotal` measurement is
    appended, and every measurement becomes a value topic and a unit topic. */
module Readings {
  import opened Wrappers
  import opened JsNumber

  /** The cycle reads 50 input registers, starting at register address 0. */
  const READ_COUNT := 50
  /** Each register is two bytes, so the returned buffer holds 100 bytes. */
  const BUFFER_BYTES := 2 * READ_COUNT
  /** A big-endian float occupies four bytes of the buffer. */
  const FLOAT_BYTES := 4
  /** `toFixed` accepts between 0 and 100 fraction digits. */
  const MAX_FRACTION_DIGITS := 100
  const POWER_UNIT := "W"
  const POWER_TOTAL_ID := "powerTotal"

  /** One entry of the register mapping: `{id, register, bytes, toFixed, unit}`.
      `register` is the byte offset of the float in the buffer; `bytes` is
      carried along but has no effect on the read. */
  datatype Element = Element(id: string, register: int, bytes: int, toFixed: int, unit: string)

  /** One published reading: `{id, value, unit}`. */
  datatype Measurement = Measurement(id: string, value: string, unit: string)

  /** One MQTT publish: a topic and its payload. */
  datatype Message = Message(topic: string, payload: string)

  /** What the register read delivered, seen through the decoder:
      `text(offset, digits)` is the float stored big-endian at byte `offset`
      of the buffer, formatted with `digits` fraction digits. */
  type FloatText = (int, int) -> string

  /** Reading the float and formatting it succeed only when the four bytes lie
      inside the buffer and the digit count is one `toFixed` accepts.
      `readFloatBE(offset)` throws a RangeError when `offset < 0` or
      `offset > length - 4`, and `toFixed(digits)` when `digits` lies outside
      0 to 100. */
  predicate Decodable(e: Element): (ok: bool)
    ensures !ok <==>
      || e.register < 0 || e.register > BUFFER_BYTES - FLOAT_BYTES
      || e.toFixed < 0 || e.toFixed > MAX_FRACTION_DIGITS
  {
    0 <= e.register && e.register + FLOAT_BYTES <= BUFFER_BYTES
    && 0 <= e.toFixed <= MAX_FRACTION_DIGITS
  }

  predicate AllDecodable(mapping: seq<Element>) {
    forall i :: 0 <= i < |mapping| ==> Decodable(mapping[i])
  }

  /** The measurement built for one mapping element. */
  function Measure(e: Element, text: FloatText): (m: Measurement)
    ensures m.id == e.id && m.unit == e.unit
    ensures m.value == text(e.register, e.toFixed)
  {
    Measurement(e.id, text(e.register, e.toFixed), e.unit)
  }

  /** The running `powerTotal`: starting from 0, every measurement whose unit
      is `W` adds `parseInt` of its value, in order. */
  function PowerSum(ms: seq<Measurement>): (total: Number)
    ensures total.NaN? ==>
      exists i :: 0 <= i < |ms| && ms[i].unit == POWER_UNIT && ParseInt(ms[i].value).NaN?
  {
    if ms == [] then Finite(0)
    else
      var before := PowerSum(ms[..|ms| - 1]);
      var last := ms[|ms| - 1];
      if last.unit == POWER_UNIT then Add(before, ParseInt(last.value)) else before
  }

  /** The synthesized measurement appended after the mapped ones: its text
      reads back, through `parseInt`, as the accumulated total. */
  function PowerTotal(ms: seq<Measurement>): (m: Measurement)
    ensures m.id == POWER_TOTAL_ID && m.unit == POWER_UNIT
    ensures ParseInt(m.value) == PowerSum(ms)
  {
    ParseIntRoundTrip(PowerSum(ms));
    Measurement(POWER_TOTAL_ID, ToString(PowerSum(ms)), POWER_UNIT)
  }

  /** The result list of a read cycle, or None when decoding threw. */
  function Results(mapping: seq<Element>, text: FloatText): (r: Option<seq<Measurement>>)
    ensures r.Some? <==> forall i :: 0 <= i < |mapping| ==> Decodable(mapping[i])
    ensures r.Some? ==> |r.value| == |mapping| + 1 && r.value[|mapping|].unit == POWER_UNIT
  {
    if AllDecodable(mapping) then
      var ms := seq(|mapping|, i requires 0 <= i < |mapping| => Measure(mapping[i], text));
      Some(ms + [PowerTotal(ms)])
    else None
  }

  /** The result list as the read callback builds it: one push per mapping
      element, then a pass over the pushed entries accumulating the power
      total, then the push of the total. */
  method BuildResults(mapping: seq<Element>, text: FloatText) returns (results: Option<seq<Measurement>>)
    ensures results == Results(mapping, text)
  {
    var ms: seq<Measurement> := [];
    var i := 0;
    while i < |mapping|
      invariant 0 <= i <= |mapping|
      invariant forall j :: 0 <= j < i ==> Decodable(mapping[j])
      invariant |ms| == i
      invariant forall j :: 0 <= j < i ==> ms[j] == Measure(mapping[j], text)
    {
      if !Decodable(mapping[i]) {
        // readFloatBE or toFixed throws: the callback's catch takes over
        return None;
      }
      ms := ms + [Measure(mapping[i], text)];
      i := i + 1;
    }
    var powerTotal := Finite(0);
    var k := 0;
    while k < |ms|
      invariant 0 <= k <= |ms|
      invariant powerTotal == PowerSum(ms[..k])
    {
      assert ms[..k + 1][..k] == ms[..k];
      if ms[k].unit == POWER_UNIT {
        powerTotal := Add(powerTotal, ParseInt(ms[k].value));
      }
      k := k + 1;
    }
    assert ms[..k] == ms;
    assert ms == seq(|mapping|, i requires 0 <= i < |mapping| => Measure(mapping[i], text));
    results := Some(ms + [Measurement(POWER_TOTAL_ID, ToString(powerTotal), POWER_UNIT)]);
  }

  /** A read cycle yields results exactly when every element decodes; then
      they are one measurement per element, in mapping order, carrying the
      element's id and unit and the formatted float at its offset, followed by
      the `powerTotal` entry in unit `W`. */
  lemma ResultsShape(mapping: seq<Element>, text: FloatText)
    ensures Results(mapping, text).Some? <==> AllDecodable(mapping)
    ensures Results(mapping, text).Some? ==>
      var rs := Results(mapping, text).value;
      && |rs| == |mapping| + 1
      && (forall i :: 0 <= i < |mapping| ==>
            rs[i].id == mapping[i].id && rs[i].unit == mapping[i].unit
            && rs[i].value == text(mapping[i].register, mapping[i].toFixed))
      && rs[|mapping|] == PowerTotal(rs[..|mapping|])
      && rs[|mapping|].id == POWER_TOTAL_ID && rs[|mapping|].unit == POWER_UNIT
  {
  }

  /** Appending measurements adds their power sum to the running total. */
  lemma {:induction false} PowerSumAppend(a: seq<Measurement>, b: seq<Measurement>)
    ensures PowerSum(a + b) == Add(PowerSum(a), PowerSum(b))
  {
    if b == [] {
      assert a + b == a;
    } else {
      var b' := b[..|b| - 1];
      assert (a + b)[..|a + b| - 1] == a + b';
      assert (a + b)[|a + b| - 1] == b[|b| - 1];
      PowerSumAppend(a, b');
    }
  }

  /** Without any `W` measurement the total is 0. */
  lemma {:induction false} PowerSumWithoutWatts(ms: seq<Measurement>)
    requires forall i :: 0 <= i < |ms| ==> ms[i].unit != POWER_UNIT
    ensures PowerSum(ms) == Finite(0)
  {
    if ms != [] {
      PowerSumWithoutWatts(ms[..|ms| - 1]);
    }
  }

  /** The total is NaN exactly when some `W` value does not start with a
      number `parseInt` can read. */
  lemma {:induction false} PowerSumNaN(ms: seq<Measurement>)
    ensures PowerSum(ms).NaN? <==>
      exists i :: 0 <= i < |ms| && ms[i].unit == POWER_UNIT && ParseInt(ms[i].value).NaN?
  {
    if ms != [] {
      var before := ms[..|ms| - 1];
      PowerSumNaN(before);
      if PowerSum(before).NaN? {
        var i :| 0 <= i < |before| && before[i].unit == POWER_UNIT && ParseInt(before[i].value).NaN?;
        assert ms[i] == before[i];
      }
      if exists i :: 0 <= i < |ms| && ms[i].unit == POWER_UNIT && ParseInt(ms[i].value).NaN? {
        var i :| 0 <= i < |ms| && ms[i].unit == POWER_UNIT && ParseInt(ms[i].value).NaN?;
        if i < |before| {
          assert before[i] == ms[i];
        }
      }
    }
  }

  /** When the mapping has no `W` element the published total is "0". */
  lemma NoWattsTotalIsZero(mapping: seq<Element>, text: FloatText)
    requires AllDecodable(mapping)
    requires forall i :: 0 <= i < |mapping| ==> mapping[i].unit != POWER_UNIT
    ensures Results(mapping, text).Some?
    ensures Results(mapping, text).value[|mapping|] == Measurement(POWER_TOTAL_ID, "0", POWER_UNIT)
  {
    var ms := seq(|mapping|, i requires 0 <= i < |mapping| => Measure(mapping[i], text));
    PowerSumWithoutWatts(ms);
  }

  /** A single voltage element at offset 0 with two fraction digits: the
      cycle yields its reading and a `powerTotal` of "0". */
  lemma VoltageOnlyCycle(text: FloatText)
    requires text(0, 2) == "230.46"
    ensures Results([Element("voltage", 0, 4, 2, "V")], text)
      == Some([Measurement("voltage", "230.46", "V"), Measurement(POWER_TOTAL_ID, "0", POWER_UNIT)])
  {
    var mapping := [Element("voltage", 0, 4, 2, "V")];
    var ms := seq(|mapping|, i requires 0 <= i < |mapping| => Measure(mapping[i], text));
    assert ms == [Measurement("voltage", "230.46", "V")];
    PowerSumWithoutWatts(ms);
    assert PowerTotal(ms) == Measurement(POWER_TOTAL_ID, "0", POWER_UNIT);
    assert ms + [PowerTotal(ms)]
      == [Measurement("voltage", "230.46", "V"), Measurement(POWER_TOTAL_ID, "0", POWER_UNIT)];
  }

  lemma ParsePhaseOne()
    ensures ParseInt("1200.50") == Finite(1200)
  {
    assert "1200"[..3] == "120" && "120"[..2] == "12" && "12"[..1] == "1" && "1"[..0] == "";
    assert DigitsValue("1200") == 1200;
    ParseIntTruncates("", "1200", ".50");
    assert "" + "1200" + ".50" == "1200.50";
  }

  lemma ParsePhaseTwo()
    ensures ParseInt("-300.75") == Finite(-300)
  {
    assert "300"[..2] == "30" && "30"[..1] == "3" && "3"[..0] == "";
    assert DigitsValue("300") == 300;
    ParseIntTruncates("-", "300", ".75");
    assert "-" + "300" + ".75" == "-300.75";
  }

  /** Two power elements and a voltage element: the total is the sum of the
      integer parts of the two power readings, the voltage is ignored. */
  lemma PowerTotalOfTwoPhases(text: FloatText)
    requires text(0, 2) == "1200.50" && text(4, 2) == "-300.75" && text(8, 1) == "230.0"
    ensures Results([Element("p1", 0, 4, 2, "W"), Element("p2", 4, 4, 2, "W"), Element("u1", 8, 4, 1, "V")], text).Some?
    ensures Results([Element("p1", 0, 4, 2, "W"), Element("p2", 4, 4, 2, "W"), Element("u1", 8, 4, 1, "V")], text).value[3]
      == Measurement(POWER_TOTAL_ID, "900", POWER_UNIT)
  {
    var mapping := [Element("p1", 0, 4, 2, "W"), Element("p2", 4, 4, 2, "W"), Element("u1", 8, 4, 1, "V")];
    var ms := seq(|mapping|, i requires 0 <= i < |mapping| => Measure(mapping[i], text));
    assert AllDecodable(mapping) by {
      assert Decodable(mapping[0]) && Decodable(mapping[1]) && Decodable(mapping[2]);
    }
    assert ms == [Measurement("p1", "1200.50", "W"), Measurement("p2", "-300.75", "W"), Measurement("u1", "230.0", "V")];
    TwoPhasesSum();
    NineHundredText();
  }

  lemma TwoPhasesSum()
    ensures PowerSum([Measurement("p1", "1200.50", "W"), Measurement("p2", "-300.75", "W"), Measurement("u1", "230.0", "V")])
      == Finite(900)
  {
    var m1, m2, m3 := Measurement("p1", "1200.50", "W"), Measurement("p2", "-300.75", "W"), Measurement("u1", "230.0", "V");
    ParsePhaseOne();
    ParsePhaseTwo();
    assert [m1, m2, m3][..2] == [m1, m2] && [m1, m2][..1] == [m1] && [m1][..0] == [];
    assert PowerSum([m1]) == Finite(1200);
    assert PowerSum([m1, m2]) == Finite(900);
  }

  lemma NineHundredText()
    ensures ToString(Finite(900)) == "900"
  {
    assert NatToString(9) == "9" && NatToString(90) == "90" && NatToString(900) == "900";
  }

  /** The topic `prefix/id/field`: the prefix, a slash, the id, a slash and
      the field, so the id sits right after the prefix and its slash. */
  function Topic(prefix: string, id: string, field: string): (t: string)
    ensures |t| == |prefix| + |id| + |field| + 2
    ensures t[|prefix| + 1..|prefix| + 1 + |id|] == id
  {
    prefix + "/" + id + "/" + field
  }

  /** What the MQTT client is asked to publish once connected: for each
      result in order, its value under `prefix/id/value`, then its unit under
      `prefix/id/unit`. */
  function Outbox(prefix: string, results: seq<Measurement>): (out: seq<Message>)
    ensures |out| == 2 * |results|
    ensures forall k :: 0 <= k < |results| ==>
      && out[2 * k] == Message(Topic(prefix, results[k].id, "value"), results[k].value)
      && out[2 * k + 1] == Message(Topic(prefix, results[k].id, "unit"), results[k].unit)
  {
    if results == [] then []
    else
      var last := results[|results| - 1];
      Outbox(prefix, results[..|results| - 1])
        + [Message(Topic(prefix, last.id, "value"), last.value),
           Message(Topic(prefix, last.id, "unit"), last.unit)]
  }

  /** Under one prefix, a value or unit topic determines both the id and the
      field it was built from. */
  lemma TopicInjective(prefix: string, id1: string, f1: string, id2: string, f2: string)
    requires f1 in {"value", "unit"} && f2 in {"value", "unit"}
    ensures Topic(prefix, id1, f1) == Topic(prefix, id2, f2) ==> id1 == id2 && f1 == f2
  {
    var t1, t2 := Topic(prefix, id1, f1), Topic(prefix, id2, f2);
    if f1 != f2 {
      assert t1[|t1| - 1] != t2[|t2| - 1];
    } else if |id1| != |id2| {
      assert |t1| != |t2|;
    } else {
      var n := |prefix| + 1;
      assert t1[n..n + |id1|] == id1;
      assert t2[n..n + |id2|] == id2;
    }
  }

  /** The field of the topic at position `a` of an outbox. */
  function FieldAt(a: nat): string {
    if a % 2 == 0 then "value" else "unit"
  }

  lemma OutboxTopicAt(prefix: string, results: seq<Measurement>, a: nat)
    requires a < 2 * |results|
    ensures Outbox(prefix, results)[a].topic == Topic(prefix, results[a / 2].id, FieldAt(a))
  {
    var k := a / 2;
    assert a == 2 * k || a == 2 * k + 1;
  }

  /** Results with pairwise distinct ids are published under pairwise
      distinct topics. */
  lemma OutboxTopicsDistinct(prefix: string, results: seq<Measurement>)
    requires forall i, j :: 0 <= i < j < |results| ==> results[i].id != results[j].id
    ensures forall a, b :: 0 <= a < b < |Outbox(prefix, results)| ==>
      Outbox(prefix, results)[a].topic != Outbox(prefix, results)[b].topic
  {
    var out := Outbox(prefix, results);
    forall a, b | 0 <= a < b < |out|
      ensures out[a].topic != out[b].topic
    {
      OutboxTopicsAt(prefix, results, a, b);
    }
  }

  lemma OutboxTopicsAt(prefix: string, results: seq<Measurement>, a: nat, b: nat)
    requires a < b < 2 * |results|
    requires results[a / 2].id != results[b / 2].id || a / 2 == b / 2
    ensures Outbox(prefix, results)[a].topic != Outbox(prefix, results)[b].topic
  {
    OutboxTopicAt(prefix, results, a);
    OutboxTopicAt(prefix, results, b);
    assert a / 2 == b / 2 ==> FieldAt(a) != FieldAt(b);
    TopicInjective(prefix, results[a / 2].id, FieldAt(a), results[b / 2].id, FieldAt(b));
  }

  /** A mapping with distinct ids, none of them `powerTotal`, publishes
      2 * (|mapping| + 1) messages under pairwise distinct topics. */
  lemma CycleTopicsDistinct(prefix: string, mapping: seq<Element>, text: FloatText)
    requires AllDecodable(mapping)
    requires forall i, j :: 0 <= i < j < |mapping| ==> mapping[i].id != mapping[j].id
    requires forall i :: 0 <= i < |mapping| ==> mapping[i].id != POWER_TOTAL_ID
    ensures Results(mapping, text).Some?
    ensures var out := Outbox(prefix, Results(mapping, text).value);
      && |out| == 2 * (|mapping| + 1)
      && forall a, b :: 0 <= a < b < |out| ==> out[a].topic != out[b].topic
  {
    ResultsShape(mapping, text);
    var rs := Results(mapping, text).value;
    assert forall i, j :: 0 <= i < j < |rs| ==> rs[i].id != rs[j].id by {
      forall i, j | 0 <= i < j < |rs|
        ensures rs[i].id != rs[j].id
      {
        if j == |mapping| {
          assert rs[i].id == mapping[i].id;
        } else {
          assert rs[i].id == mapping[i].id && rs[j].id == mapping[j].id;
        }
      }
    }
    OutboxTopicsDistinct(prefix, rs);
  }
}
