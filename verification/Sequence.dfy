/**
 Snowflake ids: the bit layout, the monitor that hands them out, and the threads around it.
 The clock and the random number are inputs: nothing is assumed about the clock beyond
 the range its readings stay in.
 */
module Snowflake {

  import opened Bits
  import opened Options

  const TWEPOCH: int := 1288834974657
  const TWO_41: int := 0x200_0000_0000
  const TWO_42: int := 0x400_0000_0000
  const MAX_SEQUENCE: int := 4095

  // ---------------------------------------------------------------- generator identity

  datatype Config = Config(datacenterId: int, workerId: int) {
    predicate Valid() {
      0 <= datacenterId <= 31 && 0 <= workerId <= 31
    }
  }

  /** getMaxWorkerId: low 16 bits of a string hash, reduced to the worker range. */
  function DeriveWorkerId(hash: int): (id: int)
    ensures 0 <= id <= 31
  {
    BitAnd(Pattern(hash), 0xffff) % 32
  }

  /** getDatacenterId: no interface gives 1; no address, or one too short to index, gives 0. */
  function DeriveDatacenterId(interfaceFound: bool, mac: Option<seq<int>>): (id: int)
    ensures 0 <= id <= 31
  {
    if !interfaceFound then 1
    else if mac.None? || |mac.value| < 2 then 0
    else
      var n := |mac.value|;
      var low := BitAnd(0xff, Pattern(mac.value[n - 1]));
      var high := BitAnd(0xff00, Pattern(Shl(mac.value[n - 2], 8)));
      (BitOr(low, high) / 64) % 32
  }

  lemma DerivedWorkerIdIsLowBits(hash: int)
    ensures DeriveWorkerId(hash) == hash % 32
  {
    Mask16(Pattern(hash), 0xffff);
    LowOfPattern(hash);
  }

  lemma LowOfPattern(x: int)
    ensures (Pattern(x) % 0x1_0000) % 32 == x % 32
  {
    var p := Pattern(x);
    DivModUnique(x, 32, 0x800_0000_0000_0000 * (x / TWO_64) + 0x800 * (p / 0x1_0000) + (p % 0x1_0000) / 32,
                 (p % 0x1_0000) % 32);
  }

  // ---------------------------------------------------------------- bit layout

  /** The id exactly as it is assembled: three shifts and three ors on `long`. */
  function Pack(c: Config, timestamp: int, sequence: int): int {
    Or(Or(Or(Shl(timestamp - TWEPOCH, 22), Shl(c.datacenterId, 17)), Shl(c.workerId, 12)), sequence)
  }

  function Low(c: Config, sequence: int): int {
    c.datacenterId * 0x2_0000 + c.workerId * 0x1000 + sequence
  }

  lemma ShiftedTimestamp(delta: int)
    ensures Pattern(Shl(delta, 22)) == (delta % TWO_42) * 0x40_0000
  {
    Pow2Values();
    PatternOfLong(delta * 0x40_0000);
    DivModUnique(delta * 0x40_0000, TWO_64, delta / TWO_42, (delta % TWO_42) * 0x40_0000);
  }

  /** The pattern of every id, whatever the clock said. */
  lemma PackPattern(c: Config, timestamp: int, sequence: int)
    requires c.Valid() && 0 <= sequence <= MAX_SEQUENCE
    ensures Pattern(Pack(c, timestamp, sequence)) ==
            ((timestamp - TWEPOCH) % TWO_42) * 0x40_0000 + Low(c, sequence)
  {
    Pow2Values();
    var t := (timestamp - TWEPOCH) % TWO_42;
    var a := Shl(timestamp - TWEPOCH, 22);
    ShiftedTimestamp(timestamp - TWEPOCH);
    SmallShift(c.datacenterId, 17);
    SmallShift(c.workerId, 12);
    DivModUnique(Pattern(a), 0x40_0000, t, 0);
    OrStep(a, c.datacenterId * 0x2_0000, 22, 0x40_0000);
    var b := Or(a, Shl(c.datacenterId, 17));
    DivModUnique(Pattern(b), 0x2_0000, t * 32 + c.datacenterId, 0);
    OrStep(b, c.workerId * 0x1000, 17, 0x2_0000);
    var d := Or(b, Shl(c.workerId, 12));
    DivModUnique(Pattern(d), 0x1000, (t * 32 + c.datacenterId) * 32 + c.workerId, 0);
    OrStep(d, sequence, 12, 0x1000);
  }

  /** Packing is invertible, for every timestamp a long can hold: the sequence, worker and datacenter
      come back exactly, the timestamp up to 2^42 milliseconds. */
  lemma Unpack(c: Config, timestamp: int, sequence: int)
    requires c.Valid() && 0 <= sequence <= MAX_SEQUENCE
    ensures var p := Pattern(Pack(c, timestamp, sequence));
      && p % 0x1000 == sequence
      && (p / 0x1000) % 32 == c.workerId
      && (p / 0x2_0000) % 32 == c.datacenterId
      && p / 0x40_0000 == (timestamp - TWEPOCH) % TWO_42
  {
    PackPattern(c, timestamp, sequence);
    Fields(c, (timestamp - TWEPOCH) % TWO_42, sequence, Pattern(Pack(c, timestamp, sequence)));
  }

  lemma Fields(c: Config, t: nat, sequence: int, p: nat)
    requires c.Valid() && 0 <= sequence <= MAX_SEQUENCE && p == t * 0x40_0000 + Low(c, sequence)
    ensures p % 0x1000 == sequence && (p / 0x1000) % 32 == c.workerId
    ensures (p / 0x2_0000) % 32 == c.datacenterId && p / 0x40_0000 == t
  {
    DivModUnique(p, 0x1000, (t * 32 + c.datacenterId) * 32 + c.workerId, sequence);
    DivModUnique(p, 0x2_0000, t * 32 + c.datacenterId, c.workerId * 0x1000 + sequence);
    DivModUnique(p, 0x40_0000, t, Low(c, sequence));
    DivModUnique(t * 32 + c.datacenterId, 32, t, c.datacenterId);
    DivModUnique((t * 32 + c.datacenterId) * 32 + c.workerId, 32, t * 32 + c.datacenterId, c.workerId);
  }

  /** Generators with different identities never share an id, whatever their clocks and sequences. */
  lemma GeneratorsNeverCollide(c1: Config, t1: int, s1: int, c2: Config, t2: int, s2: int)
    requires c1.Valid() && 0 <= s1 <= MAX_SEQUENCE
    requires c2.Valid() && 0 <= s2 <= MAX_SEQUENCE
    requires c1 != c2
    ensures Pack(c1, t1, s1) != Pack(c2, t2, s2)
  {
    Unpack(c1, t1, s1);
    Unpack(c2, t2, s2);
  }

  /** The clock range in which nothing overflows: 2^41 ms on either side of the epoch. */
  predicate ClockInRange(t: int) {
    -TWO_41 <= t - TWEPOCH < TWO_41
  }

  lemma PackValue(c: Config, timestamp: int, sequence: int)
    requires c.Valid() && 0 <= sequence <= MAX_SEQUENCE && ClockInRange(timestamp)
    ensures Pack(c, timestamp, sequence) == (timestamp - TWEPOCH) * 0x40_0000 + Low(c, sequence)
  {
    PackPattern(c, timestamp, sequence);
    var delta := timestamp - TWEPOCH;
    var v := delta * 0x40_0000 + Low(c, sequence);
    if delta >= 0 {
      DivModUnique(delta, TWO_42, 0, delta);
    } else {
      DivModUnique(delta, TWO_42, -1, delta + TWO_42);
    }
    PackRange(c, timestamp, sequence);
    LongFromPattern(Pack(c, timestamp, sequence), v);
  }

  lemma PackRange(c: Config, timestamp: int, sequence: int)
    ensures -TWO_63 <= Pack(c, timestamp, sequence) < TWO_63
  {
    var rest := Or(Or(Shl(timestamp - TWEPOCH, 22), Shl(c.datacenterId, 17)), Shl(c.workerId, 12));
    LongRange(BitOr(Pattern(rest), Pattern(sequence)));
  }

  /** Ids order as (timestamp, sequence) pairs inside the clock range ... */
  lemma PackIsMonotone(c: Config, t1: int, s1: int, t2: int, s2: int)
    requires c.Valid() && 0 <= s1 <= MAX_SEQUENCE && 0 <= s2 <= MAX_SEQUENCE
    requires ClockInRange(t1) && ClockInRange(t2)
    ensures Pack(c, t1, s1) < Pack(c, t2, s2) <==> t1 < t2 || (t1 == t2 && s1 < s2)
  {
    PackValue(c, t1, s1);
    PackValue(c, t2, s2);
  }

  /** ... and the range cannot be widened: one millisecond past its end, every id is smaller than
      every id issued before. */
  lemma PastTheRange(c: Config, t: int, s: int, s2: int)
    requires c.Valid() && 0 <= s <= MAX_SEQUENCE && 0 <= s2 <= MAX_SEQUENCE
    requires ClockInRange(t) && t > TWEPOCH - TWO_41
    ensures Pack(c, TWEPOCH + TWO_41, s2) < Pack(c, t, s)
  {
    PackValue(c, t, s);
    PackPattern(c, TWEPOCH + TWO_41, s2);
    DivModUnique(TWO_41, TWO_42, 0, TWO_41);
    PackRange(c, TWEPOCH + TWO_41, s2);
    LongFromPattern(Pack(c, TWEPOCH + TWO_41, s2), Low(c, s2) - TWO_63);
  }

  /** Nor can it be widened downwards: one millisecond before its beginning, an id is the one of the range's
      last millisecond, larger than every id before that. */
  lemma BeforeTheRange(c: Config, t: int, s: int, s2: int)
    requires c.Valid() && 0 <= s <= MAX_SEQUENCE && 0 <= s2 <= MAX_SEQUENCE
    requires ClockInRange(t) && t < TWEPOCH + TWO_41 - 1
    ensures Pack(c, TWEPOCH - TWO_41 - 1, s2) == Pack(c, TWEPOCH + TWO_41 - 1, s2)
    ensures Pack(c, TWEPOCH - TWO_41 - 1, s2) > Pack(c, t, s)
  {
    PackValue(c, t, s);
    PackValue(c, TWEPOCH + TWO_41 - 1, s2);
    PackPattern(c, TWEPOCH - TWO_41 - 1, s2);
    DivModUnique(-TWO_41 - 1, TWO_42, -1, TWO_41 - 1);
    PackRange(c, TWEPOCH - TWO_41 - 1, s2);
    LongFromPattern(Pack(c, TWEPOCH - TWO_41 - 1, s2), Pack(c, TWEPOCH + TWO_41 - 1, s2));
  }

  // ---------------------------------------------------------------- monitor sections

  datatype State = State(sequence: int, lastTimestamp: int)

  /** How a stretch of code under the monitor ends. Spinning: the busy loop has used up the clock
      readings seen so far and still holds the monitor. */
  datatype Outcome = Issued(id: int) | Waiting(millis: int) | Refused | Spinning

  function FirstAfter(readings: seq<int>, last: int): (r: Option<int>)
    ensures r.Some? ==> r.value > last && r.value in readings
  {
    if readings == [] then None
    else if readings[0] > last then Some(readings[0])
    else FirstAfter(readings[1..], last)
  }

  /** The sequence inside a millisecond: plus one, under the mask of twelve ones. */
  function Increment(sequence: int): int {
    BitAnd(Pattern(sequence + 1), Pow2(12) - 1)
  }

  /** The part after the clock checks. */
  function Generate(c: Config, s: State, timestamp: int, later: seq<int>, random: int): (State, Outcome) {
    if s.lastTimestamp == timestamp then
      var sequence := Increment(s.sequence);
      if sequence == 0 then
        match FirstAfter(later, s.lastTimestamp)
        case None => (State(0, s.lastTimestamp), Spinning)
        case Some(t) => (State(0, t), Issued(Pack(c, t, 0)))
      else (State(sequence, timestamp), Issued(Pack(c, timestamp, sequence)))
    else (State(random, timestamp), Issued(Pack(c, timestamp, random)))
  }

  /** From the call to its end or to `wait`. */
  function Enter(c: Config, s: State, timestamp: int, later: seq<int>, random: int): (State, Outcome) {
    if timestamp < s.lastTimestamp then
      var offset := s.lastTimestamp - timestamp;
      (s, if offset <= 5 then Waiting(offset * 2) else Refused)
    else Generate(c, s, timestamp, later, random)
  }

  /** From the end of `wait` to the end of the call. The clock is read again, and compared with
      whatever lastTimestamp has become in the meantime. */
  function Resume(c: Config, s: State, interrupted: bool, timestamp: int,
                  later: seq<int>, random: int): (State, Outcome) {
    if interrupted || timestamp < s.lastTimestamp then (s, Refused)
    else Generate(c, s, timestamp, later, random)
  }

  /** A call during whose `wait` no other thread takes the monitor. */
  function Alone(c: Config, s: State, i: Inputs): (State, Outcome) {
    var (t, outcome) := Enter(c, s, i.first, i.later, i.random);
    if outcome.Waiting? then Resume(c, t, i.interrupted, i.second, i.later, i.random) else (t, outcome)
  }

  /** What the environment supplies to one call: the first clock reading, the one after `wait`,
      those of the busy loop, the random start of a fresh millisecond (1 or 2), an interruption. */
  datatype Inputs = Inputs(first: int, second: int, later: seq<int>, random: int, interrupted: bool) {
    predicate Valid() {
      1 <= random < 3 && ClockInRange(first) && ClockInRange(second) && forall t :: t in later ==> ClockInRange(t)
    }
  }

  // ---------------------------------------------------------------- the generator object

  class Sequence {
    const config: Config
    var sequence: int
    var lastTimestamp: int

    function StateOf(): State
      reads this
    {
      State(sequence, lastTimestamp)
    }

    constructor (config: Config)
      ensures this.config == config && StateOf() == State(0, -1)
    {
      this.config, sequence, lastTimestamp := config, 0, -1;
    }

    /** The public constructor, whose range checks throw. */
    static method Create(workerId: int, datacenterId: int) returns (r: Option<Sequence>)
      ensures r.Some? <==> Config(datacenterId, workerId).Valid()
      ensures r.Some? ==> fresh(r.value) && r.value.config == Config(datacenterId, workerId)
      ensures r.Some? ==> r.value.StateOf() == State(0, -1)
    {
      if workerId > 31 || workerId < 0 || datacenterId > 31 || datacenterId < 0 {
        return None;
      }
      var s := new Sequence(Config(datacenterId, workerId));
      r := Some(s);
    }

    method TilNextMillis(readings: seq<int>, last: int) returns (r: Option<int>)
      ensures r == FirstAfter(readings, last)
    {
      var i := 0;
      while i < |readings| && readings[i] <= last
        invariant 0 <= i <= |readings|
        invariant FirstAfter(readings, last) == FirstAfter(readings[i..], last)
      {
        i := i + 1;
      }
      r := if i < |readings| then Some(readings[i]) else None;
    }

    method GenerateId(timestamp: int, later: seq<int>, random: int) returns (outcome: Outcome)
      modifies this
      ensures (StateOf(), outcome) == Generate(config, old(StateOf()), timestamp, later, random)
    {
      var t := timestamp;
      if lastTimestamp == timestamp {
        sequence := Increment(sequence);
        if sequence == 0 {
          var next := TilNextMillis(later, lastTimestamp);
          if next.None? {
            return Spinning;
          }
          t := next.value;
        }
      } else {
        sequence := random;
      }
      lastTimestamp := t;
      outcome := Issued(Pack(config, t, sequence));
    }

    method EnterNextId(inputs: Inputs) returns (outcome: Outcome)
      modifies this
      ensures (StateOf(), outcome) == Enter(config, old(StateOf()), inputs.first, inputs.later, inputs.random)
    {
      if inputs.first < lastTimestamp {
        var offset := lastTimestamp - inputs.first;
        return if offset <= 5 then Waiting(offset * 2) else Refused;
      }
      outcome := GenerateId(inputs.first, inputs.later, inputs.random);
    }

    method ResumeNextId(inputs: Inputs) returns (outcome: Outcome)
      modifies this
      ensures (StateOf(), outcome) ==
              Resume(config, old(StateOf()), inputs.interrupted, inputs.second, inputs.later, inputs.random)
    {
      if inputs.interrupted || inputs.second < lastTimestamp {
        return Refused;
      }
      outcome := GenerateId(inputs.second, inputs.later, inputs.random);
    }

    /** nextId when no other thread takes the monitor during `wait`. */
    method NextId(inputs: Inputs) returns (outcome: Outcome)
      requires config.Valid() && inputs.Valid() && Sound(StateOf())
      modifies this
      ensures (StateOf(), outcome) == Alone(config, old(StateOf()), inputs)
      ensures Sound(StateOf()) && !outcome.Waiting?
      ensures outcome.Issued? ==> outcome.id == Pack(config, lastTimestamp, sequence)
      ensures outcome.Issued? ==> Later(old(StateOf()), StateOf())
      ensures outcome.Refused? ==> StateOf() == old(StateOf())
    {
      outcome := EnterNextId(inputs);
      SectionKeeps(config, old(StateOf()), inputs.first, inputs.later, inputs.random);
      if outcome.Waiting? {
        outcome := ResumeNextId(inputs);
        SectionKeeps(config, old(StateOf()), inputs.second, inputs.later, inputs.random);
      }
    }
  }

  // ---------------------------------------------------------------- one section

  /** Kept by every section: the fields fit their bits. */
  predicate Sound(s: State) {
    0 <= s.sequence <= MAX_SEQUENCE && ClockInRange(s.lastTimestamp)
  }

  predicate Later(s: State, t: State) {
    s.lastTimestamp < t.lastTimestamp || (s.lastTimestamp == t.lastTimestamp && s.sequence < t.sequence)
  }

  lemma IncrementIsMod(s: int)
    requires 0 <= s <= MAX_SEQUENCE
    ensures Increment(s) == (s + 1) % Pow2(12)
  {
    MaskIsMod(s + 1, 12);
  }

  lemma NextSequence(s: int)
    requires 0 <= s <= MAX_SEQUENCE
    ensures Increment(s) == if s == MAX_SEQUENCE then 0 else s + 1
  {
    IncrementIsMod(s);
    var p := Pow2(12);
    assert p == 0x1000 by { Pow2Values(); }
    if s == MAX_SEQUENCE {
      DivModUnique(s + 1, p, 1, 0);
    } else {
      DivModUnique(s + 1, p, 0, s + 1);
    }
  }

  /** Past the clock check, a section issues the id of the state it leaves, which is later than the
      state it found; a section that does not get there writes nothing. */
  lemma SectionKeeps(c: Config, s: State, timestamp: int, later: seq<int>, random: int)
    requires c.Valid() && Sound(s) && 1 <= random < 3
    requires ClockInRange(timestamp) && forall t :: t in later ==> ClockInRange(t)
    ensures timestamp >= s.lastTimestamp ==>
      var (t, outcome) := Generate(c, s, timestamp, later, random);
      && Sound(t)
      && (outcome.Spinning? || (outcome == Issued(Pack(c, t.lastTimestamp, t.sequence)) && Later(s, t)))
  {
    NextSequence(s.sequence);
  }

  // ---------------------------------------------------------------- all threads

  datatype Event = EnterEvent(thread: nat, inputs: Inputs) | ResumeEvent(thread: nat, inputs: Inputs)

  /** One generator, the threads inside `wait`, and the ids issued so far, in issue order. */
  datatype System = System(config: Config, state: State, waiting: set<nat>, issued: seq<int>)

  function Section(y: System, e: Event): (State, Outcome) {
    match e
    case EnterEvent(_, i) => Enter(y.config, y.state, i.first, i.later, i.random)
    case ResumeEvent(_, i) => Resume(y.config, y.state, i.interrupted, i.second, i.later, i.random)
  }

  /** A section can be taken whenever the monitor is free, by a thread outside a call or by one
      leaving `wait`; a spinning section never frees the monitor, so it is not a step. */
  predicate Enabled(y: System, e: Event) {
    e.inputs.Valid() && (e.EnterEvent? <==> e.thread !in y.waiting) && !Section(y, e).1.Spinning?
  }

  function Step(y: System, e: Event): System {
    var (s, outcome) := Section(y, e);
    System(y.config, s,
           if outcome.Waiting? then y.waiting + {e.thread} else y.waiting - {e.thread},
           if outcome.Issued? then y.issued + [outcome.id] else y.issued)
  }

  predicate Run(y: System, events: seq<Event>)
    decreases |events|
  {
    events == [] || (Enabled(y, events[0]) && Run(Step(y, events[0]), events[1..]))
  }

  function End(y: System, events: seq<Event>): System
    decreases |events|
  {
    if events == [] then y else End(Step(y, events[0]), events[1..])
  }

  predicate StrictlyIncreasing(ids: seq<int>) {
    forall i, j :: 0 <= i < j < |ids| ==> ids[i] < ids[j]
  }

  predicate Ordered(y: System) {
    && y.config.Valid() && Sound(y.state) && StrictlyIncreasing(y.issued)
    && forall i :: 0 <= i < |y.issued| ==> y.issued[i] <= Pack(y.config, y.state.lastTimestamp, y.state.sequence)
  }

  lemma StepKeepsOrder(y: System, e: Event)
    requires Ordered(y) && Enabled(y, e)
    ensures Ordered(Step(y, e))
    ensures !Section(y, e).1.Issued? ==> Step(y, e).state == y.state && Step(y, e).issued == y.issued
  {
    var i := e.inputs;
    var timestamp := if e.EnterEvent? then i.first else i.second;
    SectionKeeps(y.config, y.state, timestamp, i.later, i.random);
    var t := Step(y, e).state;
    if Section(y, e).1.Issued? {
      PackIsMonotone(y.config, y.state.lastTimestamp, y.state.sequence, t.lastTimestamp, t.sequence);
    }
  }

  /** Over every interleaving of any number of threads, and for every behaviour of the clock inside
      its range (backwards included), the ids come out strictly increasing in issue order. */
  lemma {:induction false} IdsStrictlyIncrease(y: System, events: seq<Event>)
    requires Ordered(y) && Run(y, events)
    ensures Ordered(End(y, events)) && y.issued <= End(y, events).issued
    decreases |events|
  {
    if events != [] {
      StepKeepsOrder(y, events[0]);
      IdsStrictlyIncrease(Step(y, events[0]), events[1..]);
    }
  }

  lemma FreshGeneratorIsOrdered(c: Config)
    requires c.Valid()
    ensures Ordered(System(c, State(0, -1), {}, []))
  {
  }
}
