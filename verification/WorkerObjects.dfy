/** The objects the worker mutates: the adapter's call log, a flow's state, and the worker itself. */
module WorkerObjects {
  import opened Words
  import opened Wire
  import opened FlowMachine
  import RB = ReassemblyBuffer

  /** The adapter as the worker sees it: calls succeed or fail as the environment decides, and the ghost
    * trace records them. `clock` numbers the events, so that `fate` can be consulted. */
  class Adapter {
    const fate: Fate
    var clock: nat
    ghost var trace: Trace

    ghost predicate Valid()
      reads this
    {
      clock == |trace|
    }

    constructor (fate: Fate)
      ensures Valid() && trace == [] && this.fate == fate
    {
      this.fate, clock, trace := fate, 0, [];
    }

    method Call(ghost k: Key, verb: Verb, p: Packet) returns (ok: bool)
      requires Valid()
      modifies this
      ensures Valid()
      ensures trace == old(trace) + [Attempt(old(trace), k, verb, p, fate)]
      ensures ok == trace[|trace| - 1].Done?
    {
      ok := fate(clock);
      trace := trace + [Attempt(trace, k, verb, p, fate)];
      clock := clock + 1;
    }

    /** Record that a flow was injected or removed. */
    method Mark(ghost e: Event)
      requires Valid()
      modifies this
      ensures Valid() && trace == old(trace) + [e]
    {
      trace := trace + [e];
      clock := clock + 1;
    }
  }

  datatype Stage = StageNew | StageCollecting | StageInjected | StagePassThrough

  class FlowState {
    var stage: Stage
    var baseSeq: u32
    var lastActive: int
    var collectStart: int
    var firstPayloadLen: nat
    var template: Option<Packet>
    var held: seq<Packet>
    var reassembler: RB.Buffer?
    var processed: bool

    constructor (now: int)
      ensures stage == StageNew && held == [] && reassembler == null && !processed && lastActive == now
    {
      stage, baseSeq, lastActive, collectStart, firstPayloadLen := StageNew, 0, now, 0, 0;
      template, held, reassembler, processed := None, [], null, false;
    }

    ghost predicate Good()
      reads this, reassembler
    {
      stage != StageNew && (reassembler != null ==> reassembler.Valid())
    }

    ghost function AbsPhase(): Phase
      reads this
    {
      match stage
      case StageInjected => Injected
      case StagePassThrough => PassThrough
      case _ => Collecting
    }

    ghost function Abs(): Flow
      reads this, reassembler
    {
      Flow(AbsPhase(), baseSeq, lastActive, collectStart, firstPayloadLen, template, held,
           if reassembler == null then None else Some(reassembler.Abs()), processed)
    }
  }
}
