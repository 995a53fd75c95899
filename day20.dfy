/** Day 20, "Pulse Propagation": flip-flop and conjunction modules pass
    low and high pulses along their wires; part one presses the button a
    thousand times and multiplies the number of low pulses sent by the
    number of high pulses sent. */
module Day20 {
  import opened Common

  datatype ModuleType = FlipFlop | Conjunction | Broadcast

  datatype Pulse = Low | High

  /** One line of the module configuration: a module, its name and the
      modules it sends to. */
  datatype Module = Module(kind: ModuleType, name: string, destinations: seq<string>)

  const BroadcastModuleName: string := "broadcaster"
  const ButtonModuleName: string := "button"

  /** The state of the network as a value: whether each flip-flop is on,
      and the last pulse each conjunction remembers from each input. */
  datatype Modules = Modules(flipFlops: map<string, bool>, conjunctions: map<string, map<string, Pulse>>)

  // ---------------------------------------------------------------------
  // The initial state

  ghost function FlipFlopNames(config: seq<Module>): set<string>
  {
    set i | 0 <= i < |config| && config[i].kind == FlipFlop :: config[i].name
  }

  ghost function ConjunctionNames(config: seq<Module>): set<string>
  {
    set i | 0 <= i < |config| && config[i].kind == Conjunction :: config[i].name
  }

  /** The names of the modules whose wire to `c` comes before the `j`-th
      destination of the `i`-th module. */
  ghost function InputsBefore(config: seq<Module>, c: string, i: int, j: int): set<string>
  {
    set k, l | 0 <= k < |config| && 0 <= l < |config[k].destinations|
                 && (k < i || (k == i && l < j)) && config[k].destinations[l] == c :: config[k].name
  }

  /** The names of all modules with a wire to `c`. */
  ghost function Inputs(config: seq<Module>, c: string): set<string>
  {
    InputsBefore(config, c, |config|, 0)
  }

  /** A memory that remembers a low pulse from each of the names. */
  ghost function LowMemory(names: set<string>): map<string, Pulse>
  {
    map s | s in names :: Low
  }

  /** The state `State::from` builds: every flip-flop off, and every
      conjunction remembering a low pulse from exactly the modules wired
      to it. */
  ghost function Initial(config: seq<Module>): Modules
  {
    Modules(map n | n in FlipFlopNames(config) :: false,
            map c | c in ConjunctionNames(config) :: LowMemory(Inputs(config, c)))
  }

  lemma {:induction false} FlipFlopNamesStep(config: seq<Module>, i: nat)
    requires i < |config|
    ensures FlipFlopNames(config[..i + 1])
      == FlipFlopNames(config[..i]) + if config[i].kind == FlipFlop then {config[i].name} else {}
  {
    var front, longer := config[..i], config[..i + 1];
    assert forall k :: 0 <= k < i ==> longer[k] == front[k];
    assert longer[i] == config[i];
  }

  lemma {:induction false} ConjunctionNamesStep(config: seq<Module>, i: nat)
    requires i < |config|
    ensures ConjunctionNames(config[..i + 1])
      == ConjunctionNames(config[..i]) + if config[i].kind == Conjunction then {config[i].name} else {}
  {
    var front, longer := config[..i], config[..i + 1];
    assert forall k :: 0 <= k < i ==> longer[k] == front[k];
    assert longer[i] == config[i];
  }

  /** One more wire adds its module to the inputs of its destination and
      of nothing else. */
  lemma {:induction false} InputsStep(config: seq<Module>, c: string, i: nat, j: nat)
    requires i < |config| && j < |config[i].destinations|
    ensures InputsBefore(config, c, i, j + 1)
      == InputsBefore(config, c, i, j) + if config[i].destinations[j] == c then {config[i].name} else {}
  {
  }

  /** Past the last destination of a module, the next module starts. */
  lemma {:induction false} InputsNextModule(config: seq<Module>, c: string, i: nat)
    requires i < |config|
    ensures InputsBefore(config, c, i, |config[i].destinations|) == InputsBefore(config, c, i + 1, 0)
  {
  }

  /** The first loop of `State::from` has run over the first `i` modules. */
  ghost predicate Declared(config: seq<Module>, i: nat, flipFlops: map<string, bool>,
                           conjunctions: map<string, map<string, Pulse>>)
  {
    && i <= |config|
    && flipFlops == (map n | n in FlipFlopNames(config[..i]) :: false)
    && conjunctions == (map c | c in ConjunctionNames(config[..i]) :: map[])
  }

  /** The second loop of `State::from` has registered the wires before the
      `j`-th destination of the `i`-th module. */
  ghost predicate Registered(config: seq<Module>, i: nat, j: nat, conjunctions: map<string, map<string, Pulse>>)
  {
    && conjunctions.Keys == ConjunctionNames(config)
    && forall c :: c in conjunctions ==> conjunctions[c] == LowMemory(InputsBefore(config, c, i, j))
  }

  /** The two insertion loops of `State::from`. */
  method InitialMaps(config: seq<Module>) returns (flipFlops: map<string, bool>, conjunctions: map<string, map<string, Pulse>>)
    ensures Modules(flipFlops, conjunctions) == Initial(config)
  {
    flipFlops, conjunctions := DeclareModules(config);
    assert Registered(config, 0, 0, conjunctions);
    for i := 0 to |config|
      invariant Registered(config, i, 0, conjunctions)
    {
      conjunctions := RegisterWires(config, i, conjunctions);
    }
  }

  /** The first loop of `State::from`: every flip-flop off, every
      conjunction with an empty memory. */
  method DeclareModules(config: seq<Module>) returns (flipFlops: map<string, bool>, conjunctions: map<string, map<string, Pulse>>)
    ensures flipFlops == Initial(config).flipFlops
    ensures conjunctions == map c | c in ConjunctionNames(config) :: map[]
  {
    flipFlops, conjunctions := map[], map[];
    for i := 0 to |config|
      invariant Declared(config, i, flipFlops, conjunctions)
    {
      FlipFlopNamesStep(config, i);
      ConjunctionNamesStep(config, i);
      match config[i].kind {
        case FlipFlop => flipFlops := flipFlops[config[i].name := false];
        case Conjunction => conjunctions := conjunctions[config[i].name := map[]];
        case Broadcast =>
      }
    }
    assert config[..|config|] == config;
  }

  /** Remembers a low pulse from `name` at `destination`, if that is a
      conjunction. */
  function Register(conjunctions: map<string, map<string, Pulse>>, destination: string, name: string): map<string, map<string, Pulse>>
  {
    if destination in conjunctions then conjunctions[destination := conjunctions[destination][name := Low]]
    else conjunctions
  }

  /** Registering one wire moves the second loop one destination on. */
  lemma {:induction false} RegisterStep(config: seq<Module>, i: nat, j: nat, conjunctions: map<string, map<string, Pulse>>)
    requires i < |config| && j < |config[i].destinations| && Registered(config, i, j, conjunctions)
    ensures Registered(config, i, j + 1, Register(conjunctions, config[i].destinations[j], config[i].name))
  {
    var destination, name := config[i].destinations[j], config[i].name;
    var registered := Register(conjunctions, destination, name);
    forall c | c in registered ensures registered[c] == LowMemory(InputsBefore(config, c, i, j + 1)) {
      InputsStep(config, c, i, j);
      if c == destination {
        LowMemoryAdd(InputsBefore(config, c, i, j), name);
      }
    }
  }

  /** The inner loop of `State::from`: the wires of the `i`-th module. */
  method RegisterWires(config: seq<Module>, i: nat, conjunctions: map<string, map<string, Pulse>>)
    returns (registered: map<string, map<string, Pulse>>)
    requires i < |config| && Registered(config, i, 0, conjunctions)
    ensures Registered(config, i + 1, 0, registered)
  {
    registered := conjunctions;
    var name, destinations := config[i].name, config[i].destinations;
    for j := 0 to |destinations|
      invariant Registered(config, i, j, registered)
    {
      RegisterStep(config, i, j, registered);
      var destination := destinations[j];
      if destination in registered {
        registered := registered[destination := registered[destination][name := Low]];
      }
    }
    forall c | c in registered ensures InputsBefore(config, c, i, |destinations|) == InputsBefore(config, c, i + 1, 0) {
      InputsNextModule(config, c, i);
    }
  }

  lemma {:induction false} LowMemoryAdd(names: set<string>, name: string)
    ensures LowMemory(names)[name := Low] == LowMemory(names + {name})
  {
  }

  /** Every conjunction that some module is wired to remembers that
      module, unless a flip-flop of the same name takes its pulses. */
  ghost predicate Wired(config: seq<Module>, mods: Modules)
  {
    forall i, j ::
      (0 <= i < |config| && 0 <= j < |config[i].destinations|
       && config[i].destinations[j] in mods.conjunctions && config[i].destinations[j] !in mods.flipFlops) ==>
        config[i].name in mods.conjunctions[config[i].destinations[j]]
  }

  /** The initial state knows every wire into a conjunction. */
  lemma {:induction false} InitialWired(config: seq<Module>)
    ensures Wired(config, Initial(config))
  {
    forall i, j | 0 <= i < |config| && 0 <= j < |config[i].destinations|
      && config[i].destinations[j] in Initial(config).conjunctions
      ensures config[i].name in Initial(config).conjunctions[config[i].destinations[j]]
    {
      var c := config[i].destinations[j];
      assert config[i].name in InputsBefore(config, c, |config|, 0);
    }
  }

  /** Initially every flip-flop is off and every conjunction remembers a
      low pulse from exactly its inputs. */
  lemma {:induction false} InitialState(config: seq<Module>, name: string)
    ensures name in Initial(config).flipFlops <==> exists i :: 0 <= i < |config| && config[i] == Module(FlipFlop, name, config[i].destinations)
    ensures name in Initial(config).flipFlops ==> !Initial(config).flipFlops[name]
    ensures name in Initial(config).conjunctions <==> exists i :: 0 <= i < |config| && config[i] == Module(Conjunction, name, config[i].destinations)
    ensures name in Initial(config).conjunctions ==>
      forall s :: s in Initial(config).conjunctions[name] <==>
        (exists i, j :: 0 <= i < |config| && 0 <= j < |config[i].destinations|
           && config[i].name == s && config[i].destinations[j] == name)
    ensures name in Initial(config).conjunctions ==>
      forall s :: s in Initial(config).conjunctions[name] ==> Initial(config).conjunctions[name][s] == Low
  {
    if name in Initial(config).conjunctions {
      forall s ensures s in Initial(config).conjunctions[name] <==>
        (exists i, j :: 0 <= i < |config| && 0 <= j < |config[i].destinations|
           && config[i].name == s && config[i].destinations[j] == name)
      {
        if s in Initial(config).conjunctions[name] {
          var i, j :| 0 <= i < |config| && 0 <= j < |config[i].destinations|
            && config[i].destinations[j] == name && config[i].name == s;
        }
      }
    }
  }

  // ---------------------------------------------------------------------
  // One pulse

  /** The conjunction's memory holds only high pulses. */
  predicate AllHigh(memory: map<string, Pulse>)
  {
    forall s :: s in memory ==> memory[s] == High
  }

  /** `transform_pulse` on the state as a value: the pulse the destination
      sends on, if any, and the new state; none when a conjunction receives
      from a module it does not remember, where the source panics. */
  function Transform(mods: Modules, source: string, destination: string, pulse: Pulse): Option<(Option<Pulse>, Modules)>
  {
    if destination in mods.flipFlops then
      if pulse == Low then
        var on := !mods.flipFlops[destination];
        Some((Some(if on then High else Low), mods.(flipFlops := mods.flipFlops[destination := on])))
      else Some((None, mods))
    else if destination in mods.conjunctions then
      var memory := mods.conjunctions[destination];
      if source !in memory then None
      else
        var updated := memory[source := pulse];
        Some((Some(if AllHigh(updated) then Low else High), mods.(conjunctions := mods.conjunctions[destination := updated])))
    else Some((Some(pulse), mods))
  }

  /** The modules, and each conjunction's inputs, stay the same. */
  ghost predicate SameShape(before: Modules, after: Modules)
  {
    && after.flipFlops.Keys == before.flipFlops.Keys
    && after.conjunctions.Keys == before.conjunctions.Keys
    && forall c :: c in before.conjunctions ==> after.conjunctions[c].Keys == before.conjunctions[c].Keys
  }

  /** A pulse fails only at a conjunction that does not remember its
      source; otherwise it keeps the shape of the state and changes the
      destination's entry alone. */
  lemma {:induction false} TransformLocal(mods: Modules, source: string, destination: string, pulse: Pulse)
    ensures Transform(mods, source, destination, pulse).None? <==>
      destination !in mods.flipFlops && destination in mods.conjunctions && source !in mods.conjunctions[destination]
    ensures Transform(mods, source, destination, pulse).Some? ==>
      var after := Transform(mods, source, destination, pulse).value.1;
      && SameShape(mods, after)
      && (forall n :: n in mods.flipFlops && n != destination ==> after.flipFlops[n] == mods.flipFlops[n])
      && (forall n :: n in mods.conjunctions && n != destination ==> after.conjunctions[n] == mods.conjunctions[n])
  {
  }

  /** A flip-flop ignores a high pulse; a low pulse turns it over, and it
      sends high when it is now on and low when it is now off. */
  lemma {:induction false} TransformFlipFlop(mods: Modules, source: string, destination: string, pulse: Pulse)
    requires destination in mods.flipFlops
    ensures pulse == High ==> Transform(mods, source, destination, pulse) == Some((None, mods))
    ensures pulse == Low ==>
      var r := Transform(mods, source, destination, pulse).value;
      && r.1.flipFlops[destination] == !mods.flipFlops[destination]
      && r.1.conjunctions == mods.conjunctions
      && r.0 == Some(if r.1.flipFlops[destination] then High else Low)
  {
  }

  /** A conjunction remembers the pulse from its source and then sends low
      exactly when it remembers high from every input. */
  lemma {:induction false} TransformConjunction(mods: Modules, source: string, destination: string, pulse: Pulse)
    requires destination !in mods.flipFlops && destination in mods.conjunctions
    requires source in mods.conjunctions[destination]
    ensures var r := Transform(mods, source, destination, pulse).value;
      && r.1.flipFlops == mods.flipFlops
      && r.1.conjunctions[destination] == mods.conjunctions[destination][source := pulse]
      && r.0.Some?
      && (r.0 == Some(Low) <==> forall s :: s in r.1.conjunctions[destination] ==> r.1.conjunctions[destination][s] == High)
  {
  }

  /** Any other module passes the pulse on and keeps the state. */
  lemma {:induction false} TransformOther(mods: Modules, source: string, destination: string, pulse: Pulse)
    requires destination !in mods.flipFlops && destination !in mods.conjunctions
    ensures Transform(mods, source, destination, pulse) == Some((Some(pulse), mods))
  {
  }

  /** Along a wire of the configuration a pulse never fails, and the state
      stays wired. */
  lemma {:induction false} WiredTransform(config: seq<Module>, mods: Modules, i: nat, j: nat, pulse: Pulse)
    requires Wired(config, mods) && i < |config| && j < |config[i].destinations|
    ensures var r := Transform(mods, config[i].name, config[i].destinations[j], pulse);
      r.Some? && Wired(config, r.value.1)
  {
    TransformLocal(mods, config[i].name, config[i].destinations[j], pulse);
  }

  /** The modules' state, changed in place by each pulse. */
  class State {
    var flipFlops: map<string, bool>
    var conjunctions: map<string, map<string, Pulse>>

    ghost function Value(): Modules
      reads this
    {
      Modules(flipFlops, conjunctions)
    }

    /** `State::from`. */
    constructor (config: seq<Module>)
      ensures Value() == Initial(config)
    {
      var f, c := InitialMaps(config);
      flipFlops, conjunctions := f, c;
    }

    /** `transform_pulse`: changes the destination's state and returns
        the pulse it sends on, if any. */
    method TransformPulse(source: string, destination: string, pulse: Pulse) returns (r: Option<Pulse>)
      requires destination !in flipFlops && destination in conjunctions ==> source in conjunctions[destination]
      modifies this
      ensures Transform(old(Value()), source, destination, pulse) == Some((r, Value()))
    {
      if destination in flipFlops {
        if pulse == Low {
          var on := !flipFlops[destination];
          flipFlops := flipFlops[destination := on];
          r := Some(if on then High else Low);
        } else {
          r := None;
        }
      } else if destination in conjunctions {
        var memory := conjunctions[destination][source := pulse];
        conjunctions := conjunctions[destination := memory];
        r := Some(if AllHigh(memory) then Low else High);
      } else {
        r := Some(pulse);
      }
    }
  }

  // ---------------------------------------------------------------------
  // Button presses

  /** The destinations of each module by name; a later line with the same
      name replaces an earlier one, as when collecting into a map. */
  function Mapping(config: seq<Module>): (r: map<string, seq<string>>)
    ensures forall i :: 0 <= i < |config| ==> config[i].name in r
    ensures forall n :: n in r ==> exists i :: 0 <= i < |config| && config[i].name == n
  {
    if config == [] then map[]
    else
      var last := config[|config| - 1];
      var front := Mapping(config[..|config| - 1]);
      assert forall i :: 0 <= i < |config| - 1 ==> config[..|config| - 1][i] == config[i];
      front[last.name := last.destinations]
  }

  /** A pulse on its way: source, destination and type. */
  type Message = (string, string, Pulse)

  /** The numbers of low and high pulses sent. */
  datatype Sent = Sent(low: nat, high: nat)

  function Send(sent: Sent, pulse: Pulse, n: nat): (r: Sent)
    ensures r.low + r.high == sent.low + sent.high + n
  {
    if pulse == Low then sent.(low := sent.low + n) else sent.(high := sent.high + n)
  }

  /** The messages a module sends to each of its destinations in turn. */
  function Broadcasts(source: string, destinations: seq<string>, pulse: Pulse): (r: seq<Message>)
    ensures |r| == |destinations|
    ensures forall k :: 0 <= k < |r| ==> r[k] == (source, destinations[k], pulse)
  {
    seq(|destinations|, k requires 0 <= k < |destinations| => (source, destinations[k], pulse))
  }

  /** The pulses of one press handled in first-in first-out order, at most
      `fuel` of them; none when the queue does not run dry within that
      many pulses or a pulse makes the source panic. */
  ghost function Drain(mapping: map<string, seq<string>>, mods: Modules, queue: seq<Message>, sent: Sent, fuel: nat): Option<(Modules, Sent)>
    decreases fuel
  {
    if queue == [] then Some((mods, sent))
    else if fuel == 0 then None
    else
      var (source, destination, pulse) := queue[0];
      match Transform(mods, source, destination, pulse)
      case None => None
      case Some((None, after)) => Drain(mapping, after, queue[1..], sent, fuel - 1)
      case Some((Some(next), after)) =>
        if destination in mapping then
          Drain(mapping, after, queue[1..] + Broadcasts(destination, mapping[destination], next),
                Send(sent, next, |mapping[destination]|), fuel - 1)
        else Drain(mapping, after, queue[1..], sent, fuel - 1)
  }

  /** The low pulse from the button to the broadcaster. */
  const ButtonPulse: Message := (ButtonModuleName, BroadcastModuleName, Low)

  /** `presses` presses of the button, each counting its own low pulse and
      then running its pulses within `fuel`. */
  ghost function Presses(mapping: map<string, seq<string>>, mods: Modules, presses: nat, fuel: nat): Option<(Modules, Sent)>
  {
    if presses == 0 then Some((mods, Sent(0, 0)))
    else
      match Presses(mapping, mods, presses - 1, fuel)
      case None => None
      case Some((after, sent)) => Drain(mapping, after, [ButtonPulse], Send(sent, Low, 1), fuel)
  }

  /** A run of presses that settles settles after fewer presses too. */
  lemma {:induction false} PressesPrefix(mapping: map<string, seq<string>>, mods: Modules, presses: nat, fuel: nat, n: nat)
    requires n <= presses && Presses(mapping, mods, presses, fuel).Some?
    ensures Presses(mapping, mods, n, fuel).Some?
    decreases presses
  {
    if n < presses {
      PressesPrefix(mapping, mods, presses - 1, fuel, n);
    }
  }

  /** Handling a press's pulses only adds to the counts: each pulse a
      module sends on is counted as it is queued, and nothing is taken off. */
  lemma {:induction false} DrainCounts(mapping: map<string, seq<string>>, mods: Modules, queue: seq<Message>, sent: Sent, fuel: nat)
    requires Drain(mapping, mods, queue, sent, fuel).Some?
    ensures var after := Drain(mapping, mods, queue, sent, fuel).value.1;
      after.low >= sent.low && after.high >= sent.high
    decreases fuel
  {
    if queue != [] {
      var (source, destination, pulse) := queue[0];
      match Transform(mods, source, destination, pulse) {
        case Some((None, after)) => DrainCounts(mapping, after, queue[1..], sent, fuel - 1);
        case Some((Some(next), after)) =>
          if destination in mapping {
            DrainCounts(mapping, after, queue[1..] + Broadcasts(destination, mapping[destination], next),
                        Send(sent, next, |mapping[destination]|), fuel - 1);
          } else {
            DrainCounts(mapping, after, queue[1..], sent, fuel - 1);
          }
      }
    }
  }

  /** Each press sends at least its own low pulse: after `presses` presses
      at least that many low pulses were counted. */
  lemma {:induction false} PressesCountButton(mapping: map<string, seq<string>>, mods: Modules, presses: nat, fuel: nat)
    requires Presses(mapping, mods, presses, fuel).Some?
    ensures Presses(mapping, mods, presses, fuel).value.1.low >= presses
  {
    if presses > 0 {
      PressesCountButton(mapping, mods, presses - 1, fuel);
      var (after, sent) := Presses(mapping, mods, presses - 1, fuel).value;
      DrainCounts(mapping, after, [ButtonPulse], Send(sent, Low, 1), fuel);
    }
  }

  /** The queue loop of one press is on its way to `target`. */
  ghost predicate Draining(mapping: map<string, seq<string>>, state: State, queue: seq<Message>, sent: Sent,
                           budget: nat, target: (Modules, Sent))
    reads state
  {
    Drain(mapping, state.Value(), queue, sent, budget) == Some(target)
  }

  /** The `for` loop that queues a module's pulse to each destination and
      counts them. */
  method Enqueue(queue: seq<Message>, sent: Sent, source: string, destinations: seq<string>, pulse: Pulse)
    returns (queued: seq<Message>, counted: Sent)
    ensures queued == queue + Broadcasts(source, destinations, pulse)
    ensures counted == Send(sent, pulse, |destinations|)
  {
    queued, counted := queue, sent;
    for k := 0 to |destinations|
      invariant queued == queue + Broadcasts(source, destinations[..k], pulse)
      invariant counted == Send(sent, pulse, k)
    {
      assert Broadcasts(source, destinations[..k + 1], pulse) == Broadcasts(source, destinations[..k], pulse) + [(source, destinations[k], pulse)];
      queued := queued + [(source, destinations[k], pulse)];
      counted := Send(counted, pulse, 1);
      assert counted == Send(sent, pulse, k + 1);
    }
    assert destinations[..|destinations|] == destinations;
  }

  /** One button press: the `while let` loop over the queue. */
  method Press(mapping: map<string, seq<string>>, state: State, sent: Sent, ghost fuel: nat) returns (counted: Sent)
    requires Drain(mapping, state.Value(), [ButtonPulse], Send(sent, Low, 1), fuel).Some?
    modifies state
    ensures Drain(mapping, old(state.Value()), [ButtonPulse], Send(sent, Low, 1), fuel) == Some((state.Value(), counted))
  {
    ghost var target := Drain(mapping, state.Value(), [ButtonPulse], Send(sent, Low, 1), fuel).value;
    var queue := [ButtonPulse];
    counted := Send(sent, Low, 1);
    ghost var budget := fuel;
    while queue != []
      invariant Draining(mapping, state, queue, counted, budget, target)
      decreases budget
    {
      var (source, destination, pulse) := queue[0];
      queue := queue[1..];
      TransformLocal(state.Value(), source, destination, pulse);
      var next := state.TransformPulse(source, destination, pulse);
      budget := budget - 1;
      if next.Some? && destination in mapping {
        queue, counted := Enqueue(queue, counted, destination, mapping[destination], next.value);
      }
    }
  }

  const PressCount: nat := 1000

  /** The product of the low and high pulses sent over `PressCount`
      presses from the initial state, when every press settles. */
  ghost function PulseProduct(config: seq<Module>, fuel: nat): Option<nat>
  {
    match Presses(Mapping(config), Initial(config), PressCount, fuel)
    case None => None
    case Some((_, sent)) => Some(sent.low * sent.high)
  }

  /** `part1`: a thousand presses, multiplying the pulse counts. */
  method Part1(config: seq<Module>, ghost fuel: nat) returns (r: nat)
    requires PulseProduct(config, fuel).Some?
    ensures Some(r) == PulseProduct(config, fuel)
  {
    var state := new State(config);
    var mapping := Mapping(config);
    var sent := Sent(0, 0);
    for press := 0 to PressCount
      invariant fresh(state)
      invariant Presses(mapping, Initial(config), press, fuel) == Some((state.Value(), sent))
    {
      PressesPrefix(mapping, Initial(config), PressCount, fuel, press + 1);
      sent := Press(mapping, state, sent, fuel);
    }
    r := sent.low * sent.high;
  }
}
