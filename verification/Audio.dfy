/** The audio player as a state machine: writers that reserve a place, allocate a block, fill it and hand it to the
    hardware, and completion interrupts that free one transmitted block each. */
module Audio {
  import opened Sums
  import opened Wrappers

  type Byte = b: int | 0 <= b < 256
  type Positive = n: nat | n > 0 witness 1

  /** A call of the write operation. `count` is how much of the buffer has been taken; `mark`, a history value, is how
      many blocks had been transmitted when the call began. */
  datatype Call = Call(buffer: seq<Byte>, count: nat, mark: nat)

  datatype Phase =
    | Idle
    | Looping(c: Call)     // at the loop condition and the test of `tx_count` under the interrupt lock
    | Reserved(c: Call)    // has raised `tx_count`; at the allocation that waits forever
    | Copying(c: Call)     // has set `write_data`
    | Starting(c: Call)    // has filled the block; starts the hardware unless that was done
    | Sending(c: Call)     // hands `write_data` to the hardware
    | Returned(c: Call)

  /** `free` is the pool's free list and `inFlight` the transmitted blocks whose completion is outstanding; they are
      multisets because nothing in the program keeps a block from being freed twice. `sent` is the history of what
      was transmitted. Block b of the pool is the number b. */
  datatype Player = Player(
    txCount: int, txSize: nat, blockSize: Positive, free: multiset<nat>, writeData: Option<nat>,
    memory: map<nat, seq<Byte>>, activated: bool, starts: nat, inFlight: multiset<nat>, sent: seq<seq<Byte>>)

  datatype State = State(player: Player, writers: seq<Phase>)

  /** `Write(i, b)` is a step of writer i, where b is the block that the pool would hand out. */
  datatype Event = Begin(i: nat, buffer: seq<Byte>) | Write(i: nat, b: nat) | End(i: nat) | Complete(b: nat)

  /** How much of the buffer the next block takes */
  function ChunkSize(c: Call, blockSize: Positive): nat
    requires c.count <= |c.buffer|
  {
    if |c.buffer| - c.count > blockSize then blockSize else |c.buffer| - c.count
  }

  /** The block after the chunk was copied to its front */
  function Filled(block: seq<Byte>, c: Call, blockSize: Positive): seq<Byte>
    requires c.count <= |c.buffer| && |block| == blockSize
  {
    var n := ChunkSize(c, blockSize);
    c.buffer[c.count..c.count + n] + block[n..]
  }

  /** A writer's next instruction, if it is not blocked and dereferences a block of the pool */
  function Advance(a: Player, p: Phase, b: nat): Option<(Player, Phase)> {
    match p
    case Idle | Returned(_) => None
    case Looping(c) =>
      if c.count >= |c.buffer| || a.txCount == a.txSize then Some((a, Returned(c)))
      else Some((a.(txCount := a.txCount + 1), Reserved(c)))
    case Reserved(c) =>
      if a.free[b] == 0 then None else Some((a.(free := a.free - multiset{b}, writeData := Some(b)), Copying(c)))
    case Copying(c) =>
      if a.writeData.None? || a.writeData.value !in a.memory || |a.memory[a.writeData.value]| != a.blockSize
         || c.count > |c.buffer|
      then None
      else
        var d := a.writeData.value;
        Some((a.(memory := a.memory[d := Filled(a.memory[d], c, a.blockSize)]),
              Starting(c.(count := c.count + ChunkSize(c, a.blockSize)))))
    case Starting(c) => Some((if a.activated then a else a.(activated := true, starts := a.starts + 1), Sending(c)))
    case Sending(c) =>
      if a.writeData.None? || a.writeData.value !in a.memory then None
      else
        var d := a.writeData.value;
        Some((a.(inFlight := a.inFlight + multiset{d}, sent := a.sent + [a.memory[d]]), Looping(c)))
  }

  function Step(s: State, e: Event): Option<State> {
    match e
    case Begin(i, buffer) =>
      if i < |s.writers| && s.writers[i] == Idle
      then Some(s.(writers := s.writers[i := Looping(Call(buffer, 0, |s.player.sent|))]))
      else None
    case Write(i, b) =>
      if i >= |s.writers| then None
      else (match Advance(s.player, s.writers[i], b)
        case None => None
        case Some((a, p)) => Some(State(a, s.writers[i := p])))
    case End(i) =>
      if i < |s.writers| && s.writers[i].Returned? then Some(s.(writers := s.writers[i := Idle])) else None
    case Complete(b) =>
      var a := s.player;
      if a.inFlight[b] == 0 then None
      else Some(s.(player := a.(inFlight := a.inFlight - multiset{b}, free := a.free + multiset{b},
                                txCount := a.txCount - 1)))
  }

  function Run(s: State, es: seq<Event>): Option<State>
    decreases |es|
  {
    if es == [] then Some(s)
    else match Step(s, es[0])
      case None => None
      case Some(s') => Run(s', es[1..])
  }

  // ----- When a call returns -----

  /** A call returns exactly when its whole buffer is taken or `tx_count` has reached `tx_size`, with the count it has then;
      otherwise it reserves one more place. It never returns at another point. */
  lemma ReturnsWhen(s: State, e: Event, s': State, i: nat)
    requires Step(s, e) == Some(s') && i < |s.writers|
    ensures s.writers[i].Looping? && e.Write? && e.i == i ==>
      var c, a := s.writers[i].c, s.player;
      if c.count >= |c.buffer| || a.txCount == a.txSize
      then s' == s.(writers := s.writers[i := Returned(c)])
      else s' == State(a.(txCount := a.txCount + 1), s.writers[i := Reserved(c)])
    ensures s'.writers[i].Returned? && !s.writers[i].Returned? ==>
      s.writers[i].Looping? && e.Write? && e.i == i && s'.writers[i].c == s.writers[i].c
  {
  }

  // ----- The state after `_audio_player_init` -----

  function AllBlocks(n: nat): (m: multiset<nat>)
    ensures |m| == n
    ensures forall b: nat :: m[b] == (if b < n then 1 else 0)
  {
    if n == 0 then multiset{} else AllBlocks(n - 1) + multiset{n - 1}
  }

  predicate Initial(s: State) {
    var a := s.player;
    && a.txCount == 0 && a.free == AllBlocks(a.txSize) && a.inFlight == multiset{} && a.sent == []
    && !a.activated && a.starts == 0 && a.writeData == None
    && MemoryValid(a)
    && forall i :: 0 <= i < |s.writers| ==> s.writers[i] == Idle
  }

  // ----- Any number of writers at once -----

  function Reserves(p: Phase): nat { if p.Reserved? then 1 else 0 }

  /** The writer has allocated a block that it has not transmitted. */
  function HoldsBlock(p: Phase): nat { if p.Copying? || p.Starting? || p.Sending? then 1 else 0 }

  /** The calls' counts stay inside their buffers. */
  predicate InBuffer(p: Phase) { !p.Idle? ==> p.c.count <= |p.c.buffer| }

  predicate WellSized(memory: map<nat, seq<Byte>>, n: nat, blockSize: nat) {
    forall b: nat :: b < n ==> b in memory && |memory[b]| == blockSize
  }

  predicate MemoryValid(a: Player) { WellSized(a.memory, a.txSize, a.blockSize) }

  /** Every pointer to a block is one of the pool's. */
  predicate PointersValid(a: Player) {
    && (forall b :: b in a.free ==> b < a.txSize)
    && (forall b :: b in a.inFlight ==> b < a.txSize)
    && (a.writeData.Some? ==> a.writeData.value < a.txSize)
  }

  predicate BlocksValid(a: Player) { MemoryValid(a) && PointersValid(a) }

  /** Each unit of `tx_count` is a reservation, an allocated block, or a transmitted one; each block of the pool that is
      not free is allocated or transmitted. */
  predicate Balanced(s: State) {
    var a := s.player;
    && 0 <= a.txCount <= a.txSize
    && a.txCount == Total(s.writers, Reserves) + Total(s.writers, HoldsBlock) + |a.inFlight|
    && |a.free| + Total(s.writers, HoldsBlock) + |a.inFlight| == a.txSize
  }

  predicate Inv(s: State) {
    && Balanced(s) && BlocksValid(s.player)
    && (forall i :: 0 <= i < |s.writers| ==> InBuffer(s.writers[i]))
    && (Total(s.writers, HoldsBlock) > 0 ==> s.player.writeData.Some?)
    && (s.player.sent != [] ==> s.player.activated)
    && (forall i :: 0 <= i < |s.writers| && s.writers[i].Sending? ==> s.player.activated)
  }

  lemma InitialInv(s: State)
    requires Initial(s)
    ensures Inv(s)
  {
    TotalZero(s.writers, Reserves);
    TotalZero(s.writers, HoldsBlock);
  }

  lemma WritersUpdated(ws: seq<Phase>, i: nat, p: Phase)
    requires i < |ws|
    ensures Total(ws[i := p], Reserves) + Reserves(ws[i]) == Total(ws, Reserves) + Reserves(p)
    ensures Total(ws[i := p], HoldsBlock) + HoldsBlock(ws[i]) == Total(ws, HoldsBlock) + HoldsBlock(p)
    ensures Total(ws, HoldsBlock) >= HoldsBlock(ws[i])
  {
    TotalUpdated(ws, Reserves, i, p);
    TotalUpdated(ws, HoldsBlock, i, p);
    TotalAtLeast(ws, HoldsBlock, i);
  }

  /** One instruction moves a unit from one account to the next. */
  lemma AdvanceBalances(a: Player, p: Phase, b: nat, a': Player, p': Phase)
    requires Advance(a, p, b) == Some((a', p')) && a.txCount <= a.txSize
    ensures a'.txSize == a.txSize && a'.blockSize == a.blockSize && a'.txCount <= a'.txSize
    ensures a'.txCount - Reserves(p') - HoldsBlock(p') - |a'.inFlight| == a.txCount - Reserves(p) - HoldsBlock(p) - |a.inFlight|
    ensures |a'.free| + HoldsBlock(p') + |a'.inFlight| == |a.free| + HoldsBlock(p) + |a.inFlight|
  {
  }

  lemma AdvanceMemory(a: Player, p: Phase, b: nat, a': Player, p': Phase)
    requires Advance(a, p, b) == Some((a', p')) && MemoryValid(a) && InBuffer(p)
    ensures MemoryValid(a') && InBuffer(p')
  {
    if p.Copying? {
      var d := a.writeData.value;
      assert a'.memory == a.memory[d := Filled(a.memory[d], p.c, a.blockSize)];
    }
  }

  lemma AdvancePointers(a: Player, p: Phase, b: nat, a': Player, p': Phase)
    requires Advance(a, p, b) == Some((a', p')) && PointersValid(a)
    ensures PointersValid(a')
    ensures a.writeData.Some? || p.Reserved? ==> a'.writeData.Some?
    ensures (a.activated ==> a'.activated) && (p'.Sending? ==> a'.activated)
    ensures a'.sent != [] ==> a.sent != [] || p.Sending?
  {
  }

  lemma AdvanceKeeps(a: Player, p: Phase, b: nat, a': Player, p': Phase)
    requires Advance(a, p, b) == Some((a', p'))
    ensures HoldsBlock(p') > 0 ==> HoldsBlock(p) > 0 || p.Reserved?
  {
  }

  lemma CompleteInv(s: State, b: nat, s': State)
    requires Inv(s) && Step(s, Complete(b)) == Some(s')
    ensures Inv(s')
  {
  }

  /** What a writer's step or a begin or end of a call must respect. */
  lemma WriterInv(s: State, i: nat, s': State)
    requires Inv(s) && i < |s.writers| == |s'.writers| && s'.writers == s.writers[i := s'.writers[i]]
    requires BlocksValid(s'.player) && InBuffer(s'.writers[i])
    requires var a, a', p, p' := s.player, s'.player, s.writers[i], s'.writers[i];
      && a'.txSize == a.txSize && a'.txCount <= a'.txSize
      && a'.txCount - Reserves(p') - HoldsBlock(p') - |a'.inFlight| == a.txCount - Reserves(p) - HoldsBlock(p) - |a.inFlight|
      && |a'.free| + HoldsBlock(p') + |a'.inFlight| == |a.free| + HoldsBlock(p) + |a.inFlight|
      && (a.writeData.Some? || p.Reserved? ==> a'.writeData.Some?)
      && (HoldsBlock(p') > 0 ==> HoldsBlock(p) > 0 || p.Reserved?)
      && (a.activated ==> a'.activated) && (p'.Sending? ==> a'.activated)
      && (a'.sent != [] ==> a.sent != [] || p.Sending?)
    ensures Inv(s')
  {
    WritersUpdated(s.writers, i, s'.writers[i]);
  }

  lemma InvStep(s: State, e: Event, s': State)
    requires Inv(s) && Step(s, e) == Some(s')
    ensures Inv(s')
  {
    match e {
      case Begin(i, buffer) => { WriterInv(s, i, s'); }
      case End(i) => { WriterInv(s, i, s'); }
      case Write(i, b) => {
        var p, p' := s.writers[i], s'.writers[i];
        AdvanceBalances(s.player, p, b, s'.player, p');
        AdvanceMemory(s.player, p, b, s'.player, p');
        AdvancePointers(s.player, p, b, s'.player, p');
        AdvanceKeeps(s.player, p, b, s'.player, p');
        WriterInv(s, i, s');
      }
      case Complete(b) => { CompleteInv(s, b, s'); }
    }
  }

  lemma {:induction false} InvRun(s: State, es: seq<Event>, s': State)
    requires Inv(s) && Run(s, es) == Some(s')
    ensures Inv(s')
    decreases |es|
  {
    if es != [] {
      var m := Step(s, es[0]).value;
      InvStep(s, es[0], m);
      InvRun(m, es[1..], s');
    }
  }

  /** The allocation never blocks: every writer that has not returned can go on at once, whoever else is writing. */
  lemma NeverBlocks(s: State, i: nat) returns (b: nat)
    requires Inv(s) && i < |s.writers| && !s.writers[i].Idle? && !s.writers[i].Returned?
    ensures Step(s, Write(i, b)).Some?
  {
    b := 0;
    WritersUpdated(s.writers, i, Idle);
    TotalAtLeast(s.writers, Reserves, i);
    if s.writers[i].Reserved? {
      assert |s.player.free| > 0;
      b :| b in s.player.free;
    }
  }

  // ----- One writer at a time -----

  /** What the hardware received, block after block */
  function Flow(blocks: seq<seq<Byte>>): seq<Byte> {
    if blocks == [] then [] else Flow(blocks[..|blocks| - 1]) + blocks[|blocks| - 1]
  }

  lemma FlowAppended(sent: seq<seq<Byte>>, mark: nat, block: seq<Byte>)
    requires mark <= |sent|
    ensures Flow((sent + [block])[mark..]) == Flow(sent[mark..]) + block
  {
    var all := (sent + [block])[mark..];
    assert all[..|all| - 1] == sent[mark..];
  }

  /** The bytes transmitted begin with exactly the part of the buffer that was taken; only the last block of a whole
      buffer may be followed by old contents. */
  predicate Carries(flow: seq<Byte>, c: Call, blockSize: nat) {
    && c.count <= |c.buffer| && c.count <= |flow| < c.count + blockSize
    && flow[..c.count] == c.buffer[..c.count]
    && (c.count < |c.buffer| ==> |flow| == c.count)
  }

  predicate CallGood(a: Player, p: Phase) {
    p.Idle? ||
    (&& p.c.mark <= |a.sent|
     && (p.Reserved? || p.Copying? ==> p.c.count < |p.c.buffer|)
     && var flow := Flow(a.sent[p.c.mark..]);
        if p.Starting? || p.Sending? then
          && a.writeData.Some? && a.writeData.value in a.memory
          && Carries(flow + a.memory[a.writeData.value], p.c, a.blockSize)
        else Carries(flow, p.c, a.blockSize))
  }

  /** Each block of the pool is in exactly one place: free, transmitted, or with the writer. */
  ghost predicate Partitioned(a: Player, p: Phase) {
    && (HoldsBlock(p) > 0 ==> a.writeData.Some?)
    && forall b: nat :: PlacesOf(a, p, b) == (if b < a.txSize then 1 else 0)
  }

  /** How many places a block is in */
  function PlacesOf(a: Player, p: Phase, b: nat): nat {
    a.free[b] + a.inFlight[b] + (if HoldsBlock(p) > 0 && a.writeData == Some(b) then 1 else 0)
  }

  /** Nobody but writer i is in a call. */
  predicate Lone(ws: seq<Phase>, i: nat) {
    i < |ws| && forall j :: 0 <= j < |ws| && j != i ==> ws[j] == Idle
  }

  ghost predicate LoneInv(s: State, i: nat) {
    && Lone(s.writers, i) && MemoryValid(s.player)
    && CallGood(s.player, s.writers[i]) && Partitioned(s.player, s.writers[i])
    && s.player.starts == (if s.player.activated then 1 else 0)
  }

  lemma InitialLone(s: State, i: nat)
    requires Initial(s) && i < |s.writers|
    ensures LoneInv(s, i)
  {
  }

  lemma FilledCarries(flow: seq<Byte>, c: Call, block: seq<Byte>, blockSize: Positive)
    requires Carries(flow, c, blockSize) && c.count < |c.buffer| && |block| == blockSize
    ensures Carries(flow + Filled(block, c, blockSize), c.(count := c.count + ChunkSize(c, blockSize)), blockSize)
  {
    var n := ChunkSize(c, blockSize);
    var chunk := c.buffer[c.count..c.count + n];
    assert flow == c.buffer[..c.count];
    assert (flow + Filled(block, c, blockSize))[..c.count + n] == c.buffer[..c.count] + chunk == c.buffer[..c.count + n];
  }

  lemma AdvanceGood(a: Player, p: Phase, b: nat, a': Player, p': Phase)
    requires Advance(a, p, b) == Some((a', p')) && CallGood(a, p) && MemoryValid(a)
    ensures CallGood(a', p')
  {
    match p {
      case Copying(c) => {
        var d := a.writeData.value;
        FilledCarries(Flow(a.sent[c.mark..]), c, a.memory[d], a.blockSize);
      }
      case Sending(c) => { FlowAppended(a.sent, c.mark, a.memory[a.writeData.value]); }
      case _ => {}
    }
  }

  lemma AdvancePartitioned(a: Player, p: Phase, b: nat, a': Player, p': Phase)
    requires Advance(a, p, b) == Some((a', p')) && Partitioned(a, p)
    ensures Partitioned(a', p')
  {
    forall k: nat ensures PlacesOf(a', p', k) == PlacesOf(a, p, k) && a'.txSize == a.txSize {
      AdvancePlaces(a, p, b, a', p', k);
    }
  }

  lemma AdvancePlaces(a: Player, p: Phase, b: nat, a': Player, p': Phase, k: nat)
    requires Advance(a, p, b) == Some((a', p')) && (HoldsBlock(p) > 0 ==> a.writeData.Some?)
    ensures PlacesOf(a', p', k) == PlacesOf(a, p, k) && a'.txSize == a.txSize
  {
  }

  /** Calls follow one another, as they do when every writer goes through the blocking call. */
  predicate InTurn(s: State, e: Event) {
    e.Begin? ==> forall j :: 0 <= j < |s.writers| ==> s.writers[j] == Idle
  }

  lemma HoldingNothing(a: Player, p: Phase, p': Phase)
    requires Partitioned(a, p) && HoldsBlock(p) == HoldsBlock(p') == 0
    ensures Partitioned(a, p')
  {
    forall b: nat ensures PlacesOf(a, p', b) == PlacesOf(a, p, b) {}
  }

  lemma LoneStep(s: State, i: nat, e: Event, s': State)
    requires LoneInv(s, i) && InTurn(s, e) && Step(s, e) == Some(s')
    ensures LoneInv(s', if e.Begin? then e.i else i)
  {
    match e {
      case Begin(k, buffer) => {
        assert Flow(s.player.sent[|s.player.sent|..]) == [];
        HoldingNothing(s.player, Idle, s'.writers[k]);
      }
      case End(k) => {
        assert k == i;
        HoldingNothing(s.player, s.writers[i], Idle);
      }
      case Write(k, b) => {
        assert k == i;
        AdvanceGood(s.player, s.writers[i], b, s'.player, s'.writers[i]);
        AdvancePartitioned(s.player, s.writers[i], b, s'.player, s'.writers[i]);
        AdvanceMemory(s.player, s.writers[i], b, s'.player, s'.writers[i]);
      }
      case Complete(b) => { CompleteLone(s, i, b, s'); }
    }
  }

  lemma CompleteLone(s: State, i: nat, b: nat, s': State)
    requires LoneInv(s, i) && Step(s, Complete(b)) == Some(s')
    ensures LoneInv(s', i)
  {
    var a, a', p := s.player, s'.player, s.writers[i];
    forall k: nat ensures PlacesOf(a', p, k) == PlacesOf(a, p, k) {}
  }

  predicate AllInTurn(s: State, es: seq<Event>)
    requires Run(s, es).Some?
    decreases |es|
  {
    es != [] ==> InTurn(s, es[0]) && AllInTurn(Step(s, es[0]).value, es[1..])
  }

  lemma {:induction false} LoneRun(s: State, i: nat, es: seq<Event>, s': State) returns (k: nat)
    requires LoneInv(s, i) && Run(s, es) == Some(s') && AllInTurn(s, es)
    ensures LoneInv(s', k)
    decreases |es|
  {
    if es == [] {
      k := i;
    } else {
      var m := Step(s, es[0]).value;
      LoneStep(s, i, es[0], m);
      k := LoneRun(m, if es[0].Begin? then es[0].i else i, es[1..], s');
    }
  }

  /** In every run of calls that follow one another, whatever the interrupts do: a call that has returned `count` has
      transmitted blocks that carry, in order, exactly the first `count` bytes of its buffer; and the hardware was
      started once, before the first block. */
  lemma Reported(s: State, es: seq<Event>, s': State, i: nat)
    requires Initial(s) && Run(s, es) == Some(s') && AllInTurn(s, es) && i < |s'.writers| && s'.writers[i].Returned?
    ensures s'.writers[i].c.mark <= |s'.player.sent|
    ensures Carries(Flow(s'.player.sent[s'.writers[i].c.mark..]), s'.writers[i].c, s'.player.blockSize)
    ensures s'.player.sent != [] ==> s'.player.starts == 1
  {
    WritersKept(s, es, s');
    InitialInv(s);
    InvRun(s, es, s');
    InitialLone(s, i);
    var k := LoneRun(s, i, es, s');
  }

  lemma {:induction false} WritersKept(s: State, es: seq<Event>, s': State)
    requires Run(s, es) == Some(s')
    ensures |s'.writers| == |s.writers|
    decreases |es|
  {
    if es != [] { WritersKept(Step(s, es[0]).value, es[1..], s'); }
  }

  /** No step changes a block while the hardware has it. */
  lemma NotOverwritten(s: State, i: nat, e: Event, s': State, b: nat)
    requires LoneInv(s, i) && InTurn(s, e) && Step(s, e) == Some(s') && b in s.player.inFlight
    ensures b in s.player.memory && b in s'.player.memory && s'.player.memory[b] == s.player.memory[b]
  {
    var a := s.player;
    assert PlacesOf(a, s.writers[i], b) == (if b < a.txSize then 1 else 0);
  }

  // ----- Overlapping writers -----

  lemma {:induction false} RunExtended(s: State, es: seq<Event>, m: State, e: Event, s': State)
    requires Run(s, es) == Some(m) && Step(m, e) == Some(s')
    ensures Run(s, es + [e]) == Some(s')
    decreases |es|
  {
    if es == [] {
      assert ([] + [e])[1..] == [] && Run(s', []) == Some(s');
    } else {
      assert (es + [e])[1..] == es[1..] + [e];
      RunExtended(Step(s, es[0]).value, es[1..], m, e, s');
    }
  }

  lemma Move(s: State, es: seq<Event>, m: State, i: nat, b: nat, a: Player, p: Phase) returns (es': seq<Event>, s': State)
    requires Run(s, es) == Some(m) && i < |m.writers| && Advance(m.player, m.writers[i], b) == Some((a, p))
    ensures s' == State(a, m.writers[i := p]) && Run(s, es') == Some(s')
  {
    es', s' := es + [Write(i, b)], State(a, m.writers[i := p]);
    RunExtended(s, es, m, Write(i, b), s');
  }

  /** Nonblocking calls can overlap. From every state with room for two blocks, two writers can both reserve and
      allocate before either copies, and `write_data` is then the second block for both. */
  lemma BothAllocate(s: State, i: nat, j: nat, x: seq<Byte>, y: seq<Byte>) returns (es: seq<Event>, s': State)
    requires Inv(s) && i < |s.writers| && j < |s.writers| && i != j && s.writers[i] == s.writers[j] == Idle
    requires x != [] && y != [] && s.player.txCount + 2 <= s.player.txSize
    ensures Run(s, es) == Some(s') && |s'.writers| == |s.writers|
    ensures s'.writers[i] == Copying(Call(x, 0, |s.player.sent|)) && s'.writers[j] == Copying(Call(y, 0, |s.player.sent|))
    ensures s'.player.writeData.Some? && s'.player.writeData.value < s.player.txSize
    ensures s'.player.memory == s.player.memory && s'.player.sent == s.player.sent
    ensures s'.player.txSize == s.player.txSize && s'.player.blockSize == s.player.blockSize
    ensures s'.player.txCount == s.player.txCount + 2
  {
    var a := s.player;
    var c, d := Call(x, 0, |a.sent|), Call(y, 0, |a.sent|);
    var b0, b1 := TwoFree(s);
    var m1 := s.(writers := s.writers[i := Looping(c)]);
    var m2 := m1.(writers := m1.writers[j := Looping(d)]);
    RunExtended(s, [], s, Begin(i, x), m1);
    RunExtended(s, [] + [Begin(i, x)], m1, Begin(j, y), m2);
    var a1 := a.(txCount := a.txCount + 1);
    var a2 := a1.(txCount := a1.txCount + 1);
    var a3 := a2.(free := a2.free - multiset{b0}, writeData := Some(b0));
    var a4 := a3.(free := a3.free - multiset{b1}, writeData := Some(b1));
    es, s' := Move(s, [] + [Begin(i, x)] + [Begin(j, y)], m2, i, 0, a1, Reserved(c));
    es, s' := Move(s, es, s', j, 0, a2, Reserved(d));
    es, s' := Move(s, es, s', i, b0, a3, Copying(c));
    es, s' := Move(s, es, s', j, b1, a4, Copying(d));
  }

  lemma TwoFree(s: State) returns (b0: nat, b1: nat)
    requires Inv(s) && s.player.txCount + 2 <= s.player.txSize
    ensures s.player.free[b0] > 0 && (s.player.free - multiset{b0})[b1] > 0 && b1 < s.player.txSize
  {
    var free := s.player.free;
    b0 :| b0 in free;
    var rest := free - multiset{b0};
    assert |rest| > 0;
    b1 :| b1 in rest;
    assert b1 in free;
  }

  /** Both then copy to that block, and the second copy is what remains at its front. */
  lemma BothCopy(s: State, i: nat, j: nat, c: Call, d: Call) returns (es: seq<Event>, s': State, z: seq<Byte>)
    requires MemoryValid(s.player) && i < |s.writers| && j < |s.writers| && i != j
    requires s.writers[i] == Copying(c) && s.writers[j] == Copying(d) && c.count == d.count == 0
    requires s.player.writeData.Some? && s.player.writeData.value < s.player.txSize && d.buffer != []
    ensures Run(s, es) == Some(s') && |s'.writers| == |s.writers|
    ensures s'.writers[i] == Starting(c.(count := ChunkSize(c, s.player.blockSize)))
    ensures s'.writers[j] == Starting(d.(count := ChunkSize(d, s.player.blockSize)))
    ensures s'.player == s.player.(memory := s'.player.memory)
    ensures s.player.writeData.value in s'.player.memory && s'.player.memory[s.player.writeData.value] == z
    ensures z != [] && z[0] == d.buffer[0]
  {
    var a := s.player;
    var b := a.writeData.value;
    var z1 := Filled(a.memory[b], c, a.blockSize);
    z := Filled(z1, d, a.blockSize);
    var a1 := a.(memory := a.memory[b := z1]);
    var a2 := a1.(memory := a1.memory[b := z]);
    es, s' := Move(s, [], s, i, 0, a1, Starting(c.(count := ChunkSize(c, a.blockSize))));
    es, s' := Move(s, es, s', j, 0, a2, Starting(d.(count := ChunkSize(d, a.blockSize))));
  }

  /** Both transmit it. */
  lemma BothSend(s: State, i: nat, j: nat, c: Call, d: Call, b: nat) returns (es: seq<Event>, s': State)
    requires i < |s.writers| && j < |s.writers| && i != j && s.writers[i] == Starting(c) && s.writers[j] == Starting(d)
    requires s.player.writeData == Some(b) && b in s.player.memory
    ensures Run(s, es) == Some(s') && |s'.writers| == |s.writers|
    ensures s'.writers[i] == Looping(c) && s'.writers[j] == Looping(d)
    ensures s'.player.sent == s.player.sent + [s.player.memory[b]] + [s.player.memory[b]]
    ensures s'.player.inFlight == s.player.inFlight + multiset{b} + multiset{b}
    ensures s'.player.txCount == s.player.txCount && s'.player.txSize == s.player.txSize
  {
    var a := s.player;
    var z := a.memory[b];
    var a3 := if a.activated then a else a.(activated := true, starts := a.starts + 1);
    var a4 := a3.(inFlight := a3.inFlight + multiset{b}, sent := a3.sent + [z]);
    var a5 := a4.(inFlight := a4.inFlight + multiset{b}, sent := a4.sent + [z]);
    es, s' := Move(s, [], s, i, 0, a3, Sending(c));
    es, s' := Move(s, es, s', j, 0, a3, Sending(d));
    es, s' := Move(s, es, s', i, 0, a4, Looping(c));
    es, s' := Move(s, es, s', j, 0, a5, Looping(d));
  }

  lemma {:induction false} RunConcat(s: State, x: seq<Event>, m: State, y: seq<Event>, s': State)
    requires Run(s, x) == Some(m) && Run(m, y) == Some(s')
    ensures Run(s, x + y) == Some(s')
    decreases |x|
  {
    if x == [] {
      assert x + y == y;
    } else {
      assert (x + y)[1..] == x[1..] + y;
      RunConcat(Step(s, x[0]).value, x[1..], m, y, s');
    }
  }

  /** The first writer returns when its buffer is used up or the second block was the last place. */
  lemma FirstReturns(s: State, es: seq<Event>, m: State, i: nat) returns (es': seq<Event>, s': State)
    requires Run(s, es) == Some(m) && i < |m.writers| && m.writers[i].Looping?
    requires m.writers[i].c.count >= |m.writers[i].c.buffer| || m.player.txCount == m.player.txSize
    ensures Run(s, es') == Some(s') && s' == State(m.player, m.writers[i := Returned(m.writers[i].c)])
  {
    es', s' := Move(s, es, m, i, 0, m.player, Returned(m.writers[i].c));
  }

  /** So the report of a call need not be true when calls overlap: from every such state, for all buffers that begin
      differently, there is a run after which the first writer has returned a count of bytes that were never transmitted
      for it. */
  lemma Overlap(s: State, i: nat, j: nat, x: seq<Byte>, y: seq<Byte>) returns (es: seq<Event>, s': State)
    requires Inv(s) && i < |s.writers| && j < |s.writers| && i != j && s.writers[i] == s.writers[j] == Idle
    requires x != [] && y != [] && x[0] != y[0] && s.player.txCount + 2 <= s.player.txSize
    requires |x| <= s.player.blockSize || s.player.txCount + 2 == s.player.txSize
    ensures Run(s, es) == Some(s') && |s'.writers| == |s.writers|
    ensures s'.writers[i].Returned? && s'.writers[i].c.buffer == x && s'.writers[i].c.mark <= |s'.player.sent|
    ensures s'.writers[i].c.count > 0
    ensures !Carries(Flow(s'.player.sent[s'.writers[i].c.mark..]), s'.writers[i].c, s.player.blockSize)
  {
    var e1, m1 := BothAllocate(s, i, j, x, y);
    var c, d := m1.writers[i].c, m1.writers[j].c;
    var e2, m2, z := BothCopy(m1, i, j, c, d);
    var e3, m3 := BothSend(m2, i, j, m2.writers[i].c, m2.writers[j].c, m1.player.writeData.value);
    RunConcat(s, e1, m1, e2, m2);
    RunConcat(s, e1 + e2, m2, e3, m3);
    es, s' := FirstReturns(s, e1 + e2 + e3, m3, i);
    Misreported(s.player.sent, z, s'.player.sent, s'.writers[i].c, s.player.blockSize);
  }

  lemma Misreported(sent: seq<seq<Byte>>, z: seq<Byte>, sent': seq<seq<Byte>>, c: Call, blockSize: nat)
    requires sent' == sent + [z] + [z] && c.mark == |sent| && z != [] && c.buffer != [] && c.count > 0
    requires z[0] != c.buffer[0]
    ensures !Carries(Flow(sent'[c.mark..]), c, blockSize)
  {
    FlowAppended(sent, |sent|, z);
    FlowAppended(sent + [z], |sent|, z);
    assert Flow(sent[|sent|..]) == [];
    var flow := Flow(sent'[c.mark..]);
    assert flow[0] == z[0];
    if Carries(flow, c, blockSize) { CarriesFront(flow, c, blockSize); }
  }

  lemma CarriesFront(flow: seq<Byte>, c: Call, blockSize: nat)
    requires Carries(flow, c, blockSize) && c.count > 0
    ensures flow[0] == c.buffer[0]
  {
    assert flow[..c.count][0] == c.buffer[..c.count][0];
  }
}
