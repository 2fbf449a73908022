/** The interactive shell's input path: keypresses are batched and flushed in chunks
    (shell-utils.ts) into a terminal that blocks and unblocks its input (terminal.ts). */
module Shell {
  import opened Wrappers
  import Sequences
  import opened Text

  // ---------- The terminal ----------

  datatype Size = Size(rows: nat, columns: nat)

  datatype ShellEvent = Ready | Start | Unattached | Disconnect | Delete | BrokenWebsocket | Unhandled

  datatype Signal = Running | Completed | Error(message: string)

  /** `input` and `resizes` are what was sent to the websocket service, `connects` the
      sizes sent with a shell connect, `signals` what the running stream emitted. */
  datatype Terminal = Terminal(
    blockInput: bool, size: Size, input: seq<string>, resizes: seq<Size>, connects: seq<Size>, signals: seq<Signal>)

  const INTERRUPT: char := '\U{0003}'

  function Resized(t: Terminal, size: Size): Terminal {
    t.(size := size, resizes := if t.blockInput then t.resizes else t.resizes + [size])
  }

  function Written(t: Terminal, s: string): Terminal {
    if !t.blockInput then t.(input := t.input + [s])
    else if s != "" && s[0] == INTERRUPT then t.(signals := t.signals + [Error("Terminal killed")])
    else t
  }

  function WrittenAll(t: Terminal, ss: seq<string>): Terminal
    decreases |ss|
  {
    if ss == [] then t else WrittenAll(Written(t, ss[0]), ss[1..])
  }

  function Handled(t: Terminal, ev: ShellEvent): Terminal {
    match ev
    case Ready => t.(connects := t.connects + [t.size])
    case Start =>
      var nudge := Size(t.size.rows + 1, t.size.columns + 1);
      t.(blockInput := false, signals := t.signals + [Running], resizes := t.resizes + [nudge, t.size])
    case Unattached => t.(signals := t.signals + [Completed])
    case Disconnect => t.(signals := t.signals + [Error("Target Disconnected.")])
    case Delete => t.(signals := t.signals + [Error("Connection was closed.")])
    case BrokenWebsocket => t.(blockInput := true)
    case Unhandled => t
  }

  class SsmShellTerminal {
    var blockInput: bool
    var currentTerminalSize: Size
    var input: seq<string>
    var resizes: seq<Size>
    var connects: seq<Size>
    var signals: seq<Signal>

    constructor (size: Size)
      ensures State() == Terminal(true, size, [], [], [], [])
    {
      blockInput, currentTerminalSize, input, resizes, connects, signals := true, size, [], [], [], [];
    }

    function State(): Terminal
      reads this
    {
      Terminal(blockInput, currentTerminalSize, input, resizes, connects, signals)
    }

    method Resize(size: Size)
      modifies this
      ensures State() == Resized(old(State()), size)
    {
      currentTerminalSize := size;
      if !blockInput {
        resizes := resizes + [size];
      }
    }

    method WriteString(s: string)
      modifies this
      ensures State() == Written(old(State()), s)
    {
      if !blockInput {
        input := input + [s];
      } else {
        if s != "" && s[0] == INTERRUPT {
          signals := signals + [Error("Terminal killed")];
        }
      }
    }

    method HandleShellEvent(ev: ShellEvent)
      modifies this
      ensures State() == Handled(old(State()), ev)
    {
      match ev {
        case Ready =>
          connects := connects + [currentTerminalSize];
        case Start =>
          blockInput := false;
          signals := signals + [Running];
          resizes := resizes + [Size(currentTerminalSize.rows + 1, currentTerminalSize.columns + 1)];
          Resize(currentTerminalSize);
          assert resizes == old(resizes)
            + [Size(currentTerminalSize.rows + 1, currentTerminalSize.columns + 1), currentTerminalSize];
        case Unattached =>
          signals := signals + [Completed];
        case Disconnect =>
          signals := signals + [Error("Target Disconnected.")];
        case Delete =>
          signals := signals + [Error("Connection was closed.")];
        case BrokenWebsocket =>
          blockInput := true;
        case Unhandled =>
      }
    }
  }

  // ---------- Batching keypresses ----------

  const CHUNK := 10000
  const MAX_DELAY := 101
  const DELAY_INCREASE := 5

  /** `timer` is the delay of the pending flush, if one is pending. */
  datatype Input = Input(buffer: seq<string>, timer: Option<nat>, maxDelay: nat, previous: int)

  /** Consecutive groups of at most CHUNK keys. */
  function Chunks(keys: seq<string>): seq<seq<string>> {
    if keys == [] then []
    else if |keys| <= CHUNK then [keys]
    else [keys[..CHUNK]] + Chunks(keys[CHUNK..])
  }

  function Joined(groups: seq<seq<string>>): (r: seq<string>)
    ensures |r| == |groups|
  {
    seq(|groups|, i requires 0 <= i < |groups| => Concat(groups[i]))
  }

  function NextDelay(i: Input, now: int): nat {
    if now - i.previous < DELAY_INCREASE then
      if i.maxDelay < MAX_DELAY then i.maxDelay + DELAY_INCREASE else i.maxDelay
    else 1
  }

  /** The clock is read twice for one keypress. */
  function Pressed(i: Input, key: string, now: int, later: int): Input {
    var delay := NextDelay(i, now);
    Input(i.buffer + [key], if i.timer.None? then Some(delay) else i.timer, delay, later)
  }

  function Flushed(i: Input): Input {
    i.(buffer := [], timer := None)
  }

  class ShellInput {
    const terminal: SsmShellTerminal
    var inputBuffer: seq<string>
    var bufferFunction: Option<nat>
    var maxInputDelay: nat
    var previousInput: int

    constructor (terminal: SsmShellTerminal, now: int)
      ensures this.terminal == terminal && State() == Input([], None, 1, now)
    {
      this.terminal := terminal;
      inputBuffer, bufferFunction, maxInputDelay, previousInput := [], None, 1, now;
    }

    function State(): Input
      reads this
    {
      Input(inputBuffer, bufferFunction, maxInputDelay, previousInput)
    }

    method OnKeypress(key: string, now: int, later: int)
      modifies this
      ensures State() == Pressed(old(State()), key, now, later)
    {
      inputBuffer := inputBuffer + [key];
      if now - previousInput < DELAY_INCREASE {
        if maxInputDelay < MAX_DELAY {
          maxInputDelay := maxInputDelay + DELAY_INCREASE;
        }
      } else {
        maxInputDelay := 1;
      }
      previousInput := later;
      if bufferFunction.None? {
        bufferFunction := Some(maxInputDelay);
      }
    }

    method OnTimer()
      modifies this, terminal
      ensures State() == Flushed(old(State()))
      ensures terminal.State() == WrittenAll(old(terminal.State()), Joined(Chunks(old(inputBuffer))))
    {
      var i := 0;
      while i < |inputBuffer|
        invariant 0 <= i && State() == old(State())
        invariant WrittenAll(terminal.State(), Joined(Chunks(if i <= |inputBuffer| then inputBuffer[i..] else [])))
          == WrittenAll(old(terminal.State()), Joined(Chunks(inputBuffer)))
      {
        var end := if i + CHUNK <= |inputBuffer| then i + CHUNK else |inputBuffer|;
        var bufferChunk := inputBuffer[i..end];
        FirstChunk(inputBuffer, i);
        terminal.WriteString(Concat(bufferChunk));
        i := i + CHUNK;
      }
      inputBuffer := [];
      bufferFunction := None;
    }
  }

  lemma FirstChunk(keys: seq<string>, i: nat)
    requires i < |keys|
    ensures var end := if i + CHUNK <= |keys| then i + CHUNK else |keys|;
      var all, rest := Joined(Chunks(keys[i..])), Joined(Chunks(if i + CHUNK <= |keys| then keys[i + CHUNK..] else []));
      all != [] && all[0] == Concat(keys[i..end]) && all[1..] == rest
  {
    var k := keys[i..];
    if |k| > CHUNK {
      assert k[..CHUNK] == keys[i..i + CHUNK] && k[CHUNK..] == keys[i + CHUNK..];
      assert Chunks(k) == [k[..CHUNK]] + Chunks(k[CHUNK..]);
    } else {
      assert Chunks(k) == [k] && Joined([k])[1..] == [];
      assert keys[i..|keys|] == k;
      assert i + CHUNK <= |keys| ==> keys[i + CHUNK..] == [];
    }
  }

  // ---------- Chunks ----------

  function Flatten(groups: seq<seq<string>>): seq<string> {
    if groups == [] then [] else groups[0] + Flatten(groups[1..])
  }

  lemma {:induction false} ChunksFlatten(keys: seq<string>)
    ensures Flatten(Chunks(keys)) == keys
    decreases |keys|
  {
    if |keys| > CHUNK {
      ChunksFlatten(keys[CHUNK..]);
      assert Flatten([keys[..CHUNK]] + Chunks(keys[CHUNK..])) == keys[..CHUNK] + Flatten(Chunks(keys[CHUNK..]));
    } else if keys != [] {
      assert Flatten([keys]) == keys + Flatten([]);
    }
  }

  /** Chunking loses, repeats and reorders nothing; every chunk has 10000 keys, but for the
      last one, which may have fewer. */
  lemma {:induction false} ChunksKeepKeys(keys: seq<string>)
    ensures Flatten(Chunks(keys)) == keys
    ensures forall c :: c in Chunks(keys) ==> 0 < |c| <= 10000
    ensures forall i :: 0 <= i < |Chunks(keys)| - 1 ==> |Chunks(keys)[i]| == 10000
    ensures |Chunks(keys)| == (|keys| + 9999) / 10000
    decreases |keys|
  {
    ChunksFlatten(keys);
    if |keys| > CHUNK {
      ChunksKeepKeys(keys[CHUNK..]);
      OneMoreChunk(|keys| - CHUNK);
    }
  }

  lemma OneMoreChunk(n: nat)
    ensures (n + CHUNK + 9999) / 10000 == (n + 9999) / 10000 + 1
  {
  }

  lemma {:induction false} ConcatJoined(groups: seq<seq<string>>)
    ensures Concat(Joined(groups)) == Concat(Flatten(groups))
  {
    if groups != [] {
      ConcatJoined(groups[1..]);
      assert Joined(groups)[1..] == Joined(groups[1..]);
      ConcatAppend(groups[0], Flatten(groups[1..]));
    }
  }

  // ---------- Runs ----------

  datatype Event = Key(key: string, now: int, later: int) | Fire | Shell(ev: ShellEvent) | WindowResize(size: Size)

  /** `flushed` logs every string handed to the terminal. */
  datatype Session = Session(input: Input, terminal: Terminal, flushed: seq<string>)

  function Initial(size: Size, now: int): Session {
    Session(Input([], None, 1, now), Terminal(true, size, [], [], [], []), [])
  }

  function Step(s: Session, ev: Event): Session {
    match ev
    case Key(key, now, later) => s.(input := Pressed(s.input, key, now, later))
    case Fire =>
      var strings := Joined(Chunks(s.input.buffer));
      Session(Flushed(s.input), WrittenAll(s.terminal, strings), s.flushed + strings)
    case Shell(ev) => s.(terminal := Handled(s.terminal, ev))
    case WindowResize(size) => s.(terminal := Resized(s.terminal, size))
  }

  function Run(s: Session, events: seq<Event>): Session {
    if events == [] then s else Step(Run(s, events[..|events| - 1]), events[|events| - 1])
  }

  function Received(events: seq<Event>): seq<string> {
    if events == [] then []
    else
      var n := |events| - 1;
      Received(events[..n]) + if events[n].Key? then [events[n].key] else []
  }

  /** Keys pressed since the last flush. */
  function PendingKeys(events: seq<Event>): seq<string> {
    if events == [] then []
    else
      var n := |events| - 1;
      if events[n].Fire? then []
      else PendingKeys(events[..n]) + if events[n].Key? then [events[n].key] else []
  }

  /** The last of the Start and BrokenWebsocket events, if any, is a Start. */
  function Unblocked(events: seq<Event>): bool {
    if events == [] then false
    else
      var n := |events| - 1;
      if events[n] == Shell(Start) then true
      else if events[n] == Shell(BrokenWebsocket) then false
      else Unblocked(events[..n])
  }

  /** The flushes taken between a Start and the next BrokenWebsocket, in order. */
  function UnblockedFlushes(events: seq<Event>): seq<string> {
    if events == [] then []
    else
      var n := |events| - 1;
      UnblockedFlushes(events[..n]) +
        if events[n].Fire? && Unblocked(events[..n]) then Joined(Chunks(PendingKeys(events[..n]))) else []
  }

  lemma {:induction false} WrittenUnblocked(t: Terminal, ss: seq<string>)
    ensures WrittenAll(t, ss).blockInput == t.blockInput
    ensures WrittenAll(t, ss).size == t.size && WrittenAll(t, ss).resizes == t.resizes
    ensures WrittenAll(t, ss).input == if t.blockInput then t.input else t.input + ss
    decreases |ss|
  {
    if ss != [] {
      WrittenUnblocked(Written(t, ss[0]), ss[1..]);
      assert ss == [ss[0]] + ss[1..];
    }
  }

  lemma {:induction false} BufferIsPending(size: Size, now: int, events: seq<Event>)
    ensures Run(Initial(size, now), events).input.buffer == PendingKeys(events)
  {
    if events != [] {
      BufferIsPending(size, now, events[..|events| - 1]);
      assert PendingKeys(events[..|events| - 1]) + [] == PendingKeys(events[..|events| - 1]);
    }
  }

  /** A flush moves the pending keys behind what was flushed before. */
  lemma FlushMoves(flushed: seq<string>, pending: seq<string>)
    ensures Concat(flushed + Joined(Chunks(pending))) == Concat(flushed) + Concat(pending)
  {
    ConcatAppend(flushed, Joined(Chunks(pending)));
    ConcatJoined(Chunks(pending));
    ChunksKeepKeys(pending);
  }

  /** At all times what was flushed, followed by the pending buffer, is what was received. */
  lemma {:induction false} InputConserved(size: Size, now: int, events: seq<Event>)
    ensures var s := Run(Initial(size, now), events);
      Concat(s.flushed) + Concat(s.input.buffer) == Concat(Received(events))
  {
    if events != [] {
      var n := |events| - 1;
      var before := Run(Initial(size, now), events[..n]);
      InputConserved(size, now, events[..n]);
      match events[n] {
        case Key(key, _, _) =>
          ConcatAppend(before.input.buffer, [key]);
          ConcatAppend(Received(events[..n]), [key]);
          Sequences.AppendAssoc(Concat(before.flushed), Concat(before.input.buffer), Concat([key]));
        case Fire =>
          var strings := Joined(Chunks(before.input.buffer));
          FlushMoves(before.flushed, before.input.buffer);
          assert Received(events[..n]) + [] == Received(events[..n]);
          assert Concat(before.flushed + strings) + "" == Concat(before.flushed + strings);
        case Shell(_) =>
          assert Received(events[..n]) + [] == Received(events[..n]);
        case WindowResize(_) =>
          assert Received(events[..n]) + [] == Received(events[..n]);
      }
    }
  }

  predicate GoodDelay(d: nat) {
    1 <= d <= MAX_DELAY && d % DELAY_INCREASE == 1
  }

  lemma NextDelayGood(i: Input, now: int)
    requires GoodDelay(i.maxDelay)
    ensures GoodDelay(NextDelay(i, now))
  {
  }

  /** A flush is pending exactly while the buffer is not empty, and every delay is one of 1, 6, …, 101. */
  lemma {:induction false} TimerIffBuffered(size: Size, now: int, events: seq<Event>)
    ensures var i := Run(Initial(size, now), events).input;
      && (i.timer.Some? <==> i.buffer != [])
      && GoodDelay(i.maxDelay) && (i.timer.Some? ==> GoodDelay(i.timer.value))
  {
    if events != [] {
      var before := Run(Initial(size, now), events[..|events| - 1]);
      TimerIffBuffered(size, now, events[..|events| - 1]);
      if events[|events| - 1].Key? {
        NextDelayGood(before.input, events[|events| - 1].now);
      }
    }
  }

  lemma StepInput(s: Session, ev: Event)
    ensures var t, u := s.terminal, Step(s, ev).terminal;
      && u.input == t.input + (if ev.Fire? && !t.blockInput then Joined(Chunks(s.input.buffer)) else [])
      && u.blockInput == if ev == Shell(Start) then false else if ev == Shell(BrokenWebsocket) then true else t.blockInput
  {
    if ev.Fire? {
      WrittenUnblocked(s.terminal, Joined(Chunks(s.input.buffer)));
    }
    assert s.terminal.input + [] == s.terminal.input;
  }

  /** What reaches the socket is exactly the flushes taken between a Start and the next
      BrokenWebsocket, in order. */
  lemma {:induction false} SocketReceives(size: Size, now: int, events: seq<Event>)
    ensures var t := Run(Initial(size, now), events).terminal;
      t.input == UnblockedFlushes(events) && t.blockInput == !Unblocked(events)
  {
    if events != [] {
      var n := |events| - 1;
      SocketReceives(size, now, events[..n]);
      BufferIsPending(size, now, events[..n]);
      StepInput(Run(Initial(size, now), events[..n]), events[n]);
    }
  }

  /** While the terminal is unblocked the last size sent is the current one, also when it was set while blocked. */
  lemma {:induction false} LastSizeIsCurrent(size: Size, now: int, events: seq<Event>)
    ensures var t := Run(Initial(size, now), events).terminal;
      !t.blockInput ==> t.resizes != [] && t.resizes[|t.resizes| - 1] == t.size
    ensures Run(Initial(size, now), events).terminal.size == CurrentSize(size, events)
  {
    if events != [] {
      var n := |events| - 1;
      LastSizeIsCurrent(size, now, events[..n]);
      var before := Run(Initial(size, now), events[..n]);
      if events[n].Fire? {
        WrittenUnblocked(before.terminal, Joined(Chunks(before.input.buffer)));
      }
    }
  }

  /** The last size the window was given. */
  function CurrentSize(size: Size, events: seq<Event>): Size {
    if events == [] then size
    else if events[|events| - 1].WindowResize? then events[|events| - 1].size
    else CurrentSize(size, events[..|events| - 1])
  }

  /** Once the terminal is unblocked and while no websocket breaks, what the socket received
      and what is pending grow by exactly the keys received, in order. */
  lemma {:induction false} NothingLostWhileUnblocked(prefix: seq<Event>, events: seq<Event>)
    requires Unblocked(prefix) && Shell(BrokenWebsocket) !in events
    ensures Concat(UnblockedFlushes(prefix + events)) + Concat(PendingKeys(prefix + events))
      == Concat(UnblockedFlushes(prefix)) + Concat(PendingKeys(prefix)) + Concat(Received(events))
    ensures Unblocked(prefix + events)
  {
    if events == [] {
      assert prefix + events == prefix;
    } else {
      var n := |events| - 1;
      var init := events[..n];
      assert events[n] in events && forall e :: e in init ==> e in events;
      assert prefix + events == (prefix + init) + [events[n]] && events == init + [events[n]];
      NothingLostWhileUnblocked(prefix, init);
      OneMoreUnblocked(prefix + init, events[n]);
      ReceivedOneMore(init, events[n]);
      Sequences.AppendAssoc(Concat(UnblockedFlushes(prefix)) + Concat(PendingKeys(prefix)), Concat(Received(init)), KeyOf(events[n]));
    }
  }

  function KeyOf(ev: Event): string {
    if ev.Key? then ev.key else ""
  }

  lemma ReceivedOneMore(events: seq<Event>, ev: Event)
    ensures Concat(Received(events + [ev])) == Concat(Received(events)) + KeyOf(ev)
  {
    assert (events + [ev])[..|events|] == events;
    ConcatAppend(Received(events), if ev.Key? then [ev.key] else []);
    assert Concat([KeyOf(ev)]) == KeyOf(ev) + "";
  }

  /** An event that does not block an unblocked terminal loses no key. */
  lemma OneMoreUnblocked(events: seq<Event>, ev: Event)
    requires Unblocked(events) && ev != Shell(BrokenWebsocket)
    ensures Unblocked(events + [ev])
    ensures Concat(UnblockedFlushes(events + [ev])) + Concat(PendingKeys(events + [ev]))
      == Concat(UnblockedFlushes(events)) + Concat(PendingKeys(events)) + KeyOf(ev)
  {
    var all := events + [ev];
    assert all[..|events|] == events;
    var done, pending := UnblockedFlushes(events), PendingKeys(events);
    if ev.Fire? {
      assert UnblockedFlushes(all) == done + Joined(Chunks(pending)) && PendingKeys(all) == [];
      FlushMoves(done, pending);
    } else {
      assert UnblockedFlushes(all) == done + [] == done;
      ReceivedOneMore([], ev);
      ConcatAppend(pending, if ev.Key? then [ev.key] else []);
      assert Concat([KeyOf(ev)]) == KeyOf(ev) + "";
      Sequences.AppendAssoc(Concat(done), Concat(pending), KeyOf(ev));
    }
  }

  // ---------- What the terminal emits ----------

  /** The shell connects that are sent: one for each Ready, with the size the window has then. */
  function ConnectsSent(size: Size, events: seq<Event>): seq<Size> {
    if events == [] then []
    else
      var n := |events| - 1;
      ConnectsSent(size, events[..n]) + ConnectsFor(CurrentSize(size, events[..n]), events[n])
  }

  function ConnectsFor(current: Size, ev: Event): seq<Size> {
    if ev == Shell(Ready) then [current] else []
  }

  /** The sizes that are sent: those set while unblocked, and at a Start one that is larger
      by a row and a column, to force a refresh, before the current one. */
  function SizesSent(size: Size, events: seq<Event>): seq<Size> {
    if events == [] then []
    else
      var n := |events| - 1;
      SizesSent(size, events[..n]) + SizesFor(CurrentSize(size, events[..n]), Unblocked(events[..n]), events[n])
  }

  function SizesFor(current: Size, unblocked: bool, ev: Event): seq<Size> {
    if ev == Shell(Start) then [Size(current.rows + 1, current.columns + 1), current]
    else if ev.WindowResize? && unblocked then [ev.size]
    else []
  }

  /** The chunks of a flush that a blocked terminal takes for an interrupt. */
  function Interrupts(ss: seq<string>): nat {
    if ss == [] then 0 else Interrupts(ss[..|ss| - 1]) + if StartsWithInterrupt(ss[|ss| - 1]) then 1 else 0
  }

  predicate StartsWithInterrupt(s: string) {
    s != "" && s[0] as int == 3
  }

  /** What the running stream emits. */
  function SignalsSent(events: seq<Event>): seq<Signal> {
    if events == [] then []
    else
      var n := |events| - 1;
      SignalsSent(events[..n]) + SignalsFor(Unblocked(events[..n]), PendingKeys(events[..n]), events[n])
  }

  function SignalsFor(unblocked: bool, pending: seq<string>, ev: Event): seq<Signal> {
    match ev
    case Shell(Start) => [Running]
    case Shell(Unattached) => [Completed]
    case Shell(Disconnect) => [Error("Target Disconnected.")]
    case Shell(Delete) => [Error("Connection was closed.")]
    case Fire => if unblocked then [] else seq(Interrupts(Joined(Chunks(pending))), _ => Error("Terminal killed"))
    case _ => []
  }

  lemma WrittenAllSnoc(t: Terminal, ss: seq<string>, s: string)
    ensures WrittenAll(t, ss + [s]) == Written(WrittenAll(t, ss), s)
    decreases |ss|
  {
    if ss == [] {
      assert ss + [s] == [s];
    } else {
      WrittenAllSnoc(Written(t, ss[0]), ss[1..], s);
      assert (ss + [s])[0] == ss[0] && (ss + [s])[1..] == ss[1..] + [s];
    }
  }

  lemma {:induction false} WrittenSignals(t: Terminal, ss: seq<string>)
    ensures var u := WrittenAll(t, ss);
      && u.blockInput == t.blockInput && u.connects == t.connects
      && u.signals == t.signals + if t.blockInput then seq(Interrupts(ss), _ => Error("Terminal killed")) else []
  {
    if ss == [] {
      assert t.signals + [] == t.signals;
    } else {
      var init, last := ss[..|ss| - 1], ss[|ss| - 1];
      WrittenSignals(t, init);
      assert ss == init + [last];
      WrittenAllSnoc(t, init, last);
      assert (INTERRUPT as int) == 3;
    }
  }

  /** What was sent and signalled over a run, by its events alone. */
  lemma {:induction false} TerminalEmits(size: Size, now: int, events: seq<Event>)
    ensures var t := Run(Initial(size, now), events).terminal;
      t.connects == ConnectsSent(size, events) && t.resizes == SizesSent(size, events) && t.signals == SignalsSent(events)
  {
    if events != [] {
      var n := |events| - 1;
      var before := Run(Initial(size, now), events[..n]);
      TerminalEmits(size, now, events[..n]);
      SocketReceives(size, now, events[..n]);
      LastSizeIsCurrent(size, now, events[..n]);
      BufferIsPending(size, now, events[..n]);
      StepSends(before, events[n]);
      StepSignals(before, events[n]);
    }
  }

  lemma StepSends(s: Session, ev: Event)
    ensures var t, u := s.terminal, Step(s, ev).terminal;
      && u.connects == t.connects + ConnectsFor(t.size, ev)
      && u.resizes == t.resizes + SizesFor(t.size, !t.blockInput, ev)
  {
    if ev.Fire? {
      WrittenSignals(s.terminal, Joined(Chunks(s.input.buffer)));
      WrittenUnblocked(s.terminal, Joined(Chunks(s.input.buffer)));
    }
    assert s.terminal.connects + [] == s.terminal.connects && s.terminal.resizes + [] == s.terminal.resizes;
  }

  lemma StepSignals(s: Session, ev: Event)
    ensures Step(s, ev).terminal.signals == s.terminal.signals + SignalsFor(!s.terminal.blockInput, s.input.buffer, ev)
  {
    if ev.Fire? {
      WrittenSignals(s.terminal, Joined(Chunks(s.input.buffer)));
    }
    assert s.terminal.signals + [] == s.terminal.signals;
  }

  // ---------- When the delay grows ----------

  /** Keys that follow each other by less than five milliseconds. */
  ghost predicate Burst(events: seq<Event>, previous: int)
    decreases |events|
  {
    events != [] ==> events[0].Key? && events[0].now - previous < 5 && Burst(events[1..], events[0].later)
  }

  function LastTime(events: seq<Event>, previous: int): int
    decreases |events|
  {
    if events == [] then previous
    else LastTime(events[1..], if events[0].Key? then events[0].later else previous)
  }

  lemma {:induction false} RunFrom(s: Session, events: seq<Event>)
    requires events != []
    ensures Run(s, events) == Run(Step(s, events[0]), events[1..])
    decreases |events|
  {
    var n := |events| - 1;
    if n > 0 {
      RunFrom(s, events[..n]);
      assert events[..n][0] == events[0] && events[..n][1..] == events[1..][..n - 1] && events[1..][n - 1] == events[n];
    } else {
      assert Run(s, events[..0]) == s && events[1..] == [];
    }
  }

  /** A key that comes five milliseconds or more after the previous one resets the delay to
      one; each of the `k` keys of a burst after it adds five, up to 101.  The flush that
      the first key of a buffer schedules keeps its delay. */
  lemma {:induction false} BurstDelay(s: Session, first: Event, burst: seq<Event>)
    requires first.Key? && first.now - s.input.previous >= 5 && Burst(burst, first.later)
    ensures var t := Run(Step(s, first), burst);
      && t.input.maxDelay == (if |burst| <= 20 then 1 + 5 * |burst| else 101)
      && t.input.previous == LastTime(burst, first.later)
      && t.input.timer == (if s.input.timer.None? then Some(1) else s.input.timer)
  {
    BurstFrom(Step(s, first), burst, 0);
    if burst == [] {
      assert Run(Step(s, first), burst) == Step(s, first);
    }
  }

  /** The delay after `k` keys of a burst. */
  function DelayAfter(k: nat): nat {
    if k <= 20 then 1 + 5 * k else 101
  }

  /** A flush that a key schedules waits for the delay that this key leads to; a pending one keeps its delay. */
  lemma {:induction false} BurstFrom(s: Session, burst: seq<Event>, k: nat)
    requires Burst(burst, s.input.previous) && s.input.maxDelay == DelayAfter(k)
    ensures var t := Run(s, burst);
      && t.input.maxDelay == DelayAfter(k + |burst|)
      && t.input.previous == LastTime(burst, s.input.previous)
      && t.input.timer == if s.input.timer.Some? || burst == [] then s.input.timer else Some(DelayAfter(k + 1))
    decreases |burst|
  {
    if burst != [] {
      RunFrom(s, burst);
      BurstFrom(Step(s, burst[0]), burst[1..], k + 1);
    }
  }

  /** The keys among some events. */
  function OnlyKeys(events: seq<Event>): seq<Event> {
    if events == [] then []
    else
      var n := |events| - 1;
      OnlyKeys(events[..n]) + if events[n].Key? then [events[n]] else []
  }

  /** The delay depends on the keys alone: flushes, shell events and resizes leave it as it is. */
  lemma {:induction false} DelayOfKeys(size: Size, now: int, events: seq<Event>)
    ensures var a, b := Run(Initial(size, now), events).input, Run(Initial(size, now), OnlyKeys(events)).input;
      a.maxDelay == b.maxDelay && a.previous == b.previous
  {
    if events != [] {
      var n := |events| - 1;
      DelayOfKeys(size, now, events[..n]);
      var keys := OnlyKeys(events[..n]);
      if events[n].Key? {
        RunSnoc(Initial(size, now), keys, events[n]);
      } else {
        assert keys + [] == keys;
      }
    }
  }

  lemma RunSnoc(s: Session, events: seq<Event>, ev: Event)
    ensures Run(s, events + [ev]) == Step(Run(s, events), ev)
  {
    assert (events + [ev])[..|events|] == events;
  }
}
