/** The Modbus polling state machine: the module-level `mbsState` that every
    timer tick inspects to pick connect, read or nothing, and that the
    completion callbacks of the dispatched action later overwrite. */
module Polling {
  import opened Wrappers
  import opened Readings

  /** The seven values of `mbsState`. */
  datatype MbsState = Init | Idle | Next | GoodRead | FailRead | GoodConnect | FailConnect

  /** What a tick can dispatch: `connectModbusClient` or `readModbusData`. */
  datatype Action = Connect | Read

  class Poller {
    /** The register mapping and the MQTT topic prefix, fixed at start-up. */
    const mapping: seq<Element>
    const prefix: string

    /** `mbsState`. */
    var state: MbsState
    /** `modbusClient.isOpen`: whether a Modbus TCP session is open. */
    var isOpen: bool
    /** The action whose promise has not settled yet, if any. */
    ghost var inFlight: Option<Action>

    /** Between events: `Next` is never left standing; the state is `Idle`
        exactly while an action is in flight, so at most one is; a connect is
        in flight only with the old session closed; reads are issued, and the
        good states reached, only with a session open. */
    ghost predicate Valid()
      reads this
    {
      && state != Next
      && (state == Idle <==> inFlight.Some?)
      && (inFlight == Some(Connect) ==> !isOpen)
      && (inFlight == Some(Read) ==> isOpen)
      && (state == GoodConnect || state == GoodRead ==> isOpen)
    }

    constructor (mapping: seq<Element>, prefix: string)
      ensures Valid()
      ensures this.mapping == mapping && this.prefix == prefix
      ensures state == Init && !isOpen && inFlight == None
    {
      this.mapping := mapping;
      this.prefix := prefix;
      state := Init;
      isOpen := false;
      inFlight := None;
    }

    /** The synchronous part of `connectModbusClient`: close any open session
        so that no second one is created, then start connecting. */
    method ConnectModbusClient()
      modifies this
      ensures !isOpen && inFlight == Some(Connect) && state == old(state)
    {
      if isOpen {
        isOpen := false;
      }
      inFlight := Some(Connect);
    }

    /** The synchronous part of `readModbusData`: request the registers. */
    method ReadModbusData()
      modifies this
      ensures inFlight == Some(Read) && state == old(state) && isOpen == old(isOpen)
    {
      inFlight := Some(Read);
    }

    /** `runModbus`: the switch picks the next action; `FailRead` with an open
        session first writes `Next`, but a picked action is always run and
        followed by the write of `Idle`, which overwrites it. */
    method Tick() returns (dispatched: Option<Action>)
      requires Valid()
      modifies this
      ensures Valid()
      ensures old(state) in {Init, FailConnect, FailRead} ==> dispatched == Some(Connect)
      ensures old(state) in {GoodConnect, GoodRead} ==> dispatched == Some(Read)
      ensures old(state) == Idle ==> dispatched == None
      ensures dispatched.Some? ==> state == Idle && inFlight == dispatched
      ensures dispatched == Some(Connect) ==> !isOpen
      ensures dispatched == Some(Read) ==> isOpen && isOpen == old(isOpen)
      ensures dispatched == None ==> state == old(state) && isOpen == old(isOpen) && inFlight == old(inFlight)
      ensures old(inFlight) == None ==> dispatched.Some?
    {
      var next: Option<Action> := None;
      match state {
        case Init =>
          next := Some(Connect);
        case Next =>
          next := Some(Read);
        case GoodConnect =>
          next := Some(Read);
        case FailConnect =>
          next := Some(Connect);
        case GoodRead =>
          next := Some(Read);
        case FailRead =>
          next := Some(Connect);
          if isOpen {
            state := Next;
          }
        case Idle =>
      }
      if next.Some? {
        if next.value == Connect {
          ConnectModbusClient();
        } else {
          ReadModbusData();
        }
        state := Idle;
      }
      dispatched := next;
    }

    /** The settlement of `connectTCP`: resolved gives `GoodConnect` with the
        session open, rejected gives `FailConnect` with none. */
    method CompleteConnect(ok: bool)
      requires Valid() && inFlight == Some(Connect)
      modifies this
      ensures Valid() && inFlight == None
      ensures state == (if ok then GoodConnect else FailConnect)
      ensures isOpen == ok
    {
      isOpen := ok;
      state := if ok then GoodConnect else FailConnect;
      inFlight := None;
    }

    /** The settlement of `readInputRegisters`: a rejection, or a RangeError
        while building the results, gives `FailRead` and nothing to publish;
        otherwise the state is `GoodRead` and the outbox holds the value and
        unit topics of every result. */
    method CompleteRead(reply: Option<FloatText>) returns (outbox: seq<Message>)
      requires Valid() && inFlight == Some(Read)
      modifies this
      ensures Valid() && inFlight == None && isOpen == old(isOpen)
      ensures reply.None? ==> state == FailRead && outbox == []
      ensures reply.Some? && !AllDecodable(mapping) ==> state == FailRead && outbox == []
      ensures reply.Some? && AllDecodable(mapping) ==>
        state == GoodRead && outbox == Outbox(prefix, Results(mapping, reply.value).value)
    {
      outbox := [];
      match reply {
        case None =>
          state := FailRead;
        case Some(text) =>
          var results := BuildResults(mapping, text);
          ResultsShape(mapping, text);
          match results {
            case None =>
              state := FailRead;
            case Some(rs) =>
              state := GoodRead;
              outbox := Outbox(prefix, rs);
          }
      }
      inFlight := None;
    }
  }

  /** Every connect attempt fails: each tick dispatches exactly one connect,
      no read is ever dispatched, and the state stays `FailConnect`. */
  method RepeatedConnectFailures(mapping: seq<Element>, prefix: string, n: nat)
    returns (connects: nat, readCount: nat, last: MbsState)
    ensures connects == n && readCount == 0
    ensures last == (if n == 0 then Init else FailConnect)
  {
    var p := new Poller(mapping, prefix);
    connects, readCount := 0, 0;
    var i := 0;
    while i < n
      invariant 0 <= i <= n
      invariant p.Valid() && p.inFlight == None
      invariant p.state == (if i == 0 then Init else FailConnect)
      invariant connects == i && readCount == 0
    {
      var action := p.Tick();
      connects := connects + if action == Some(Connect) then 1 else 0;
      readCount := readCount + if action == Some(Read) then 1 else 0;
      p.CompleteConnect(false);
      i := i + 1;
    }
    last := p.state;
  }

  /** A successful read is followed, on the next tick, by another read and
      not by a reconnect, whatever becomes of the publish. */
  method GoodReadKeepsReading(mapping: seq<Element>, prefix: string, text: FloatText)
    returns (actions: seq<Option<Action>>, outbox: seq<Message>)
    requires AllDecodable(mapping)
    ensures actions == [Some(Connect), Some(Read), Some(Read)]
    ensures |outbox| == 2 * (|mapping| + 1)
  {
    var p := new Poller(mapping, prefix);
    var first := p.Tick();
    p.CompleteConnect(true);
    var second := p.Tick();
    outbox := p.CompleteRead(Some(text));
    ResultsShape(mapping, text);
    var third := p.Tick();
    actions := [first, second, third];
  }

  /** A register block the mapping does not fit publishes nothing, and the
      next tick reconnects. */
  method DecodeErrorReconnects(mapping: seq<Element>, prefix: string, text: FloatText)
    returns (actions: seq<Option<Action>>, outbox: seq<Message>, last: MbsState)
    requires !AllDecodable(mapping)
    ensures actions == [Some(Connect), Some(Read), Some(Connect)]
    ensures outbox == [] && last == Idle
  {
    var p := new Poller(mapping, prefix);
    var first := p.Tick();
    p.CompleteConnect(true);
    var second := p.Tick();
    outbox := p.CompleteRead(Some(text));
    var third := p.Tick();
    actions := [first, second, third];
    last := p.state;
  }

  /** While an action is in flight, further ticks dispatch nothing. */
  method TicksWhileInFlight(mapping: seq<Element>, prefix: string, extra: nat)
    returns (dispatched: nat)
    ensures dispatched == 1
  {
    var p := new Poller(mapping, prefix);
    var first := p.Tick();
    dispatched := 0;
    dispatched := dispatched + if first.Some? then 1 else 0;
    var i := 0;
    while i < extra
      invariant 0 <= i <= extra
      invariant p.Valid() && p.state == Idle && p.inFlight == Some(Connect)
      invariant dispatched == 1
    {
      var action := p.Tick();
      dispatched := dispatched + if action.Some? then 1 else 0;
      i := i + 1;
    }
  }
}
