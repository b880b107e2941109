/** Restoring files that tasks share: every file is opened by one task, its master, and passed to the others over
    transport sockets (files.c, pipes.c).

    Tasks are numbered in the order of their pids, and a file of a task by its place in that process's list. */
module FdProtocol {
  import opened Options
  import opened Sequences

  // A descriptor of a task: which task, and which of its files.
  datatype Fle = Fle(pid: nat, idx: nat)

  // A file of a task: the descriptor number, and the file behind it.
  datatype Slot = Slot(fd: nat, desc: nat)

  // What a file is; peers are the other ends of the same pipe, in the order of the pipe's list.
  datatype Kind =
    | Regular
    | Pipe(pipe: nat, reopen: bool, wronly: bool, peers: seq<nat>)

  // A file with the descriptors that refer to it, the master first.
  datatype Desc = Desc(list: seq<Fle>, kind: Kind)

  // All there is to restore; creators says which end of a pipe creates the pipe.
  datatype Plan = Plan(tasks: seq<seq<Slot>>, descs: seq<Desc>, creators: seq<nat>)

  predicate IsFle(plan: Plan, f: Fle) {
    f.pid < |plan.tasks| && f.idx < |plan.tasks[f.pid]|
  }

  function Files(plan: Plan, t: nat): seq<Slot> {
    if t < |plan.tasks| then plan.tasks[t] else []
  }

  function FdOf(plan: Plan, f: Fle): nat {
    if IsFle(plan, f) then plan.tasks[f.pid][f.idx].fd else 0
  }

  function DescOf(plan: Plan, f: Fle): nat {
    if IsFle(plan, f) then plan.tasks[f.pid][f.idx].desc else 0
  }

  function ListOf(plan: Plan, d: nat): seq<Fle> {
    if d < |plan.descs| then plan.descs[d].list else []
  }

  function KindOf(plan: Plan, d: nat): Kind {
    if d < |plan.descs| then plan.descs[d].kind else Regular
  }

  function Master(plan: Plan, d: nat): Fle {
    if ListOf(plan, d) != [] then ListOf(plan, d)[0] else Fle(0, 0)
  }

  // The end that creates the pipe an end belongs to.
  function Creator(plan: Plan, d: nat): nat {
    var k := KindOf(plan, d);
    if k.Pipe? && k.pipe < |plan.creators| then plan.creators[k.pipe] else d
  }

  function Peers(plan: Plan, d: nat): seq<nat> {
    var k := KindOf(plan, d);
    if k.Pipe? then k.peers else []
  }

  // Which of two descriptors takes precedence: the one of the lower pid, then the lower number.
  predicate Prio(plan: Plan, f: Fle, g: Fle) {
    f.pid < g.pid || (f.pid == g.pid && FdOf(plan, f) < FdOf(plan, g))
  }

  // A task's descriptors are listed in ascending order, each also with its file.
  ghost predicate TasksOk(plan: Plan) {
    && (forall f :: IsFle(plan, f) ==> DescOf(plan, f) < |plan.descs| && f in ListOf(plan, DescOf(plan, f)))
    && (forall f, g :: IsFle(plan, f) && IsFle(plan, g) && f.pid == g.pid && f.idx < g.idx ==>
          FdOf(plan, f) < FdOf(plan, g))
  }

  // A file's descriptors are listed in the order of their precedence; only a pipe end has to have one.
  ghost predicate DescOk(plan: Plan, d: nat) {
    var list := ListOf(plan, d);
    && (KindOf(plan, d).Pipe? ==> list != [])
    && (forall k :: 0 <= k < |list| ==> IsFle(plan, list[k]) && DescOf(plan, list[k]) == d)
    && (forall j, k :: 0 <= j < k < |list| ==> Prio(plan, list[j], list[k]))
  }

  // Of the ends of a pipe one creates it; it has precedence over the others, and they are its peers.
  ghost predicate PipeOk(plan: Plan, d: nat) {
    KindOf(plan, d).Pipe? ==>
      var c := Creator(plan, d);
      && c < |plan.descs| && KindOf(plan, c).Pipe? && Creator(plan, c) == c
      && (d != c ==> d in Peers(plan, c) && Prio(plan, Master(plan, c), Master(plan, d)))
  }

  ghost predicate PeersOk(plan: Plan, c: nat) {
    var peers := Peers(plan, c);
    && (forall k :: 0 <= k < |peers| ==>
          peers[k] < |plan.descs| && KindOf(plan, peers[k]).Pipe?
          && (Creator(plan, c) == c ==> peers[k] != c && Creator(plan, peers[k]) == c))
    && (forall j, k :: 0 <= j < k < |peers| ==> peers[j] != peers[k])
  }

  ghost predicate WellFormed(plan: Plan) {
    && TasksOk(plan)
    && (forall d :: 0 <= d < |plan.descs| ==> DescOk(plan, d) && PipeOk(plan, d) && PeersOk(plan, d))
  }

  // An open file: one that was opened, one end of a new pipe, or a pipe opened once more for an end.
  datatype Obj =
    | Opened(desc: nat)
    | PipeEnd(pipe: nat, wronly: bool)
    | Again(desc: nat, pipe: nat, wronly: bool)

  // How far a task is: the stages prepare, create and receive go through its files;
  // creating a pipe sends ends to its peers, and an open file is served out to its descriptors.
  datatype Pc =
    | Prep(i: nat)
    | Open(i: nat)
    | Sending(i: nat, k: nat)
    | Serving(i: nat, k: nat)
    | Recv(i: nat)
    | Done

  // ready: the transports that are there; mail: what is queued in them; slots: the files in place;
  // opens: the files that were opened, in order.
  datatype State = State(pcs: seq<Pc>, ready: set<Fle>, mail: map<Fle, seq<Obj>>, slots: map<Fle, Obj>, opens: seq<nat>)

  function PcOf(s: State, t: nat): Pc {
    if t < |s.pcs| then s.pcs[t] else Done
  }

  function MailOf(s: State, f: Fle): seq<Obj> {
    if f in s.mail then s.mail[f] else []
  }

  function SlotOf(s: State, f: Fle): Obj {
    if f in s.slots then s.slots[f] else Opened(0)
  }

  predicate IsMaster(plan: Plan, f: Fle) {
    Master(plan, DescOf(plan, f)) == f
  }

  // A descriptor whose file is opened by another task.
  predicate Foreign(plan: Plan, f: Fle) {
    Master(plan, DescOf(plan, f)).pid != f.pid
  }

  // The master of a pipe end that another end creates.
  predicate Receiver(plan: Plan, f: Fle) {
    IsMaster(plan, f) && KindOf(plan, DescOf(plan, f)).Pipe? && Creator(plan, DescOf(plan, f)) != DescOf(plan, f)
  }

  // Whether a descriptor gets a transport in the prepare stage.
  predicate NeedsTransport(plan: Plan, f: Fle) {
    Foreign(plan, f) || Receiver(plan, f)
  }

  // Whether the receive stage is needed: some transport was opened.
  predicate WantsRecv(plan: Plan, t: nat) {
    exists i :: 0 <= i < |Files(plan, t)| && NeedsTransport(plan, Fle(t, i))
  }

  // The open file that is behind a file's descriptors once all is restored.
  function FileOf(plan: Plan, d: nat): Obj {
    var k := KindOf(plan, d);
    if !k.Pipe? then Opened(d) else if k.reopen then Again(d, k.pipe, k.wronly) else PipeEnd(k.pipe, k.wronly)
  }

  // What an end that was received or created becomes: if it is opened again, that is with the flags of the image.
  function Reopened(plan: Plan, d: nat, o: Obj): Obj {
    var k := KindOf(plan, d);
    if k.Pipe? && k.reopen && !o.Opened? then Again(d, o.pipe, k.wronly) else o
  }

  function Move(s: State, t: nat, pc: Pc): State {
    if t < |s.pcs| then s.(pcs := s.pcs[t := pc]) else s
  }

  // Sending to a transport; where there is none yet the message is lost.
  function Post(s: State, g: Fle, o: Obj): State {
    if g in s.ready then s.(mail := s.mail[g := MailOf(s, g) + [o]]) else s
  }

  function Take(s: State, f: Fle): State {
    if MailOf(s, f) == [] then s else s.(mail := s.mail[f := MailOf(s, f)[1..]])
  }

  function Put(s: State, f: Fle, o: Obj): State {
    s.(slots := s.slots[f := o])
  }

  // A task can go on, unless it waits for a message or for a transport.
  predicate CanStep(plan: Plan, s: State, t: nat) {
    match PcOf(s, t)
    case Prep(_) => true
    case Open(i) => i < |Files(plan, t)| && Receiver(plan, Fle(t, i)) ==> MailOf(s, Fle(t, i)) != []
    case Sending(i, k) =>
      var peers := Peers(plan, DescOf(plan, Fle(t, i)));
      k < |peers| ==> Master(plan, peers[k]) in s.ready
    case Serving(i, k) =>
      var list := ListOf(plan, DescOf(plan, Fle(t, i)));
      k < |list| && list[k].pid != t ==> list[k] in s.ready
    case Recv(i) => i < |Files(plan, t)| && Foreign(plan, Fle(t, i)) ==> MailOf(s, Fle(t, i)) != []
    case Done => false
  }

  // One step of a task.
  function Step(plan: Plan, s: State, t: nat): State {
    match PcOf(s, t)
    case Prep(i) => StepPrep(plan, s, t, i)
    case Open(i) => StepOpen(plan, s, t, i)
    case Sending(i, k) => StepSending(plan, s, t, i, k)
    case Serving(i, k) => StepServing(plan, s, t, i, k)
    case Recv(i) => StepRecv(plan, s, t, i)
    case Done => s
  }

  // Opening a transport for the next file, if it needs one.
  function StepPrep(plan: Plan, s: State, t: nat, i: nat): State {
    if i >= |Files(plan, t)| then Move(s, t, Open(0))
    else if NeedsTransport(plan, Fle(t, i)) then Move(s.(ready := s.ready + {Fle(t, i)}), t, Prep(i + 1))
    else Move(s, t, Prep(i + 1))
  }

  // Opening the next file, by its master: a pipe end that another creates is received,
  // a pipe is created before its own end is opened.
  function StepOpen(plan: Plan, s: State, t: nat, i: nat): State {
    var f := Fle(t, i);
    var d := DescOf(plan, f);
    if i >= |Files(plan, t)| then Move(s, t, if WantsRecv(plan, t) then Recv(0) else Done)
    else if !IsMaster(plan, f) then Move(s, t, Open(i + 1))
    else if Receiver(plan, f) then
      if MailOf(s, f) == [] then s else OpenAs(plan, Take(s, f), t, i, Reopened(plan, d, MailOf(s, f)[0]))
    else if KindOf(plan, d).Pipe? then Move(s, t, Sending(i, 0))
    else OpenAs(plan, s, t, i, Opened(d))
  }

  // The end of a pipe that a file is.
  function EndOf(plan: Plan, d: nat): Obj {
    var k := KindOf(plan, d);
    if k.Pipe? then PipeEnd(k.pipe, k.wronly) else Opened(d)
  }

  // Sending an end of a new pipe to the next peer; then the creator keeps its own.
  function StepSending(plan: Plan, s: State, t: nat, i: nat, k: nat): State {
    var d := DescOf(plan, Fle(t, i));
    var peers := Peers(plan, d);
    if k < |peers| then Move(Post(s, Master(plan, peers[k]), EndOf(plan, peers[k])), t, Sending(i, k + 1))
    else OpenAs(plan, s, t, i, Reopened(plan, d, EndOf(plan, d)))
  }

  // Serving an open file out to the next of its descriptors, in the same task or in another.
  function StepServing(plan: Plan, s: State, t: nat, i: nat, k: nat): State {
    var list := ListOf(plan, DescOf(plan, Fle(t, i)));
    var o := SlotOf(s, Fle(t, i));
    if k >= |list| then Move(s, t, Open(i + 1))
    else if list[k].pid == t then Move(Put(s, list[k], o), t, Serving(i, k + 1))
    else Move(Post(s, list[k], o), t, Serving(i, k + 1))
  }

  // Receiving the next file that another task opened.
  function StepRecv(plan: Plan, s: State, t: nat, i: nat): State {
    var f := Fle(t, i);
    if i >= |Files(plan, t)| then Move(s, t, Done)
    else if !Foreign(plan, f) then Move(s, t, Recv(i + 1))
    else if MailOf(s, f) == [] then s
    else Move(Put(Take(s, f), f, MailOf(s, f)[0]), t, Recv(i + 1))
  }

  // A master has its file: it is put in place, and serving it out begins.
  function OpenAs(plan: Plan, s: State, t: nat, i: nat, o: Obj): State {
    var f := Fle(t, i);
    Move(Put(s.(opens := s.opens + [DescOf(plan, f)]), f, o), t, Serving(i, 0))
  }

  function Start(plan: Plan): State {
    State(seq(|plan.tasks|, _ => Prep(0)), {}, map[], map[], [])
  }

  // How far a task is with one of its files.

  predicate PrepPast(pc: Pc, i: nat) {
    pc.Prep? ==> i < pc.i
  }

  // The create stage is through with the file.
  predicate Past(pc: Pc, i: nat) {
    !pc.Prep? && (pc.Open? || pc.Sending? || pc.Serving? ==> i < pc.i)
  }

  predicate OpenedAt(pc: Pc, i: nat) {
    Past(pc, i) || (pc.Serving? && pc.i == i)
  }

  // The k-th descriptor of the file has been served.
  predicate Served(pc: Pc, i: nat, k: nat) {
    Past(pc, i) || (pc.Serving? && pc.i == i && k < pc.k)
  }

  // The k-th peer of the pipe has been sent its end.
  predicate SentEnd(pc: Pc, i: nat, k: nat) {
    OpenedAt(pc, i) || (pc.Sending? && pc.i == i && k < pc.k)
  }

  predicate RecvPast(pc: Pc, i: nat) {
    pc.Done? || (pc.Recv? && i < pc.i)
  }

  // A message for the descriptor has been sent.
  predicate Sent(plan: Plan, s: State, f: Fle) {
    var d := DescOf(plan, f);
    if Foreign(plan, f) then
      var m := Master(plan, d);
      Served(PcOf(s, m.pid), m.idx, IndexOf(ListOf(plan, d), f))
    else
      var c := Creator(plan, d);
      var m := Master(plan, c);
      SentEnd(PcOf(s, m.pid), m.idx, IndexOf<nat>(Peers(plan, c), d))
  }

  // The message has been taken.
  predicate Taken(plan: Plan, s: State, f: Fle) {
    if Foreign(plan, f) then RecvPast(PcOf(s, f.pid), f.idx) else OpenedAt(PcOf(s, f.pid), f.idx)
  }

  // The descriptor is in place.
  predicate Filled(plan: Plan, s: State, f: Fle) {
    var d := DescOf(plan, f);
    if Foreign(plan, f) then RecvPast(PcOf(s, f.pid), f.idx)
    else if IsMaster(plan, f) then OpenedAt(PcOf(s, f.pid), f.idx)
    else Served(PcOf(s, f.pid), Master(plan, d).idx, IndexOf(ListOf(plan, d), f))
  }

  // What is sent to the descriptor.
  function Message(plan: Plan, f: Fle): Obj {
    var d := DescOf(plan, f);
    if Foreign(plan, f) then FileOf(plan, d) else EndOf(plan, d)
  }

  // All of the state that belongs to a descriptor follows from how far the tasks are.
  ghost predicate FleOk(plan: Plan, s: State, f: Fle) {
    && (f in s.ready <==> NeedsTransport(plan, f) && PrepPast(PcOf(s, f.pid), f.idx))
    && MailOf(s, f) ==
         (if NeedsTransport(plan, f) && Sent(plan, s, f) && !Taken(plan, s, f) then [Message(plan, f)] else [])
    && (MailOf(s, f) != [] ==> f in s.ready)
    && (NeedsTransport(plan, f) && Taken(plan, s, f) ==> Sent(plan, s, f))
    && (f in s.slots <==> Filled(plan, s, f))
    && (Filled(plan, s, f) ==> SlotOf(s, f) == FileOf(plan, DescOf(plan, f)))
  }

  // A file was opened if and only if its master is that far, and then once.
  ghost predicate OpensOk(plan: Plan, s: State, d: nat) {
    var m := Master(plan, d);
    multiset(s.opens)[d] == if ListOf(plan, d) != [] && OpenedAt(PcOf(s, m.pid), m.idx) then 1 else 0
  }

  ghost predicate PcOk(plan: Plan, t: nat, pc: Pc) {
    match pc
    case Sending(i, k) =>
      var d := DescOf(plan, Fle(t, i));
      && i < |Files(plan, t)| && IsMaster(plan, Fle(t, i)) && KindOf(plan, d).Pipe? && Creator(plan, d) == d
      && k <= |Peers(plan, d)|
    case Serving(i, k) =>
      i < |Files(plan, t)| && IsMaster(plan, Fle(t, i)) && k <= |ListOf(plan, DescOf(plan, Fle(t, i)))|
    case Done => true
    case _ => pc.i <= |Files(plan, t)|
  }

  ghost predicate Inv(plan: Plan, s: State) {
    && |s.pcs| == |plan.tasks|
    && (forall t :: 0 <= t < |s.pcs| ==> PcOk(plan, t, s.pcs[t]))
    && (forall f :: IsFle(plan, f) ==> FleOk(plan, s, f))
    && (forall d :: 0 <= d < |plan.descs| ==> OpensOk(plan, s, d))
  }

  lemma DescFacts(plan: Plan, d: nat)
    requires WellFormed(plan) && d < |plan.descs| && (ListOf(plan, d) != [] || KindOf(plan, d).Pipe?)
    ensures IsFle(plan, Master(plan, d)) && DescOf(plan, Master(plan, d)) == d
    ensures ListOf(plan, d) != []
  {
    assert DescOk(plan, d);
  }

  lemma FleFacts(plan: Plan, f: Fle)
    requires WellFormed(plan) && IsFle(plan, f)
    ensures DescOf(plan, f) < |plan.descs|
    ensures f in ListOf(plan, DescOf(plan, f))
    ensures IsMaster(plan, f) || Prio(plan, Master(plan, DescOf(plan, f)), f)
  {
    var d := DescOf(plan, f);
    assert DescOk(plan, d);
    var list := ListOf(plan, d);
    var k := IndexOf(list, f);
    if k > 0 {
      assert Prio(plan, list[0], list[k]);
    }
  }

  // The descriptors of a file, by their place.
  lemma ListFacts(plan: Plan, d: nat, k: nat)
    requires WellFormed(plan) && d < |plan.descs| && k < |ListOf(plan, d)|
    ensures IsFle(plan, ListOf(plan, d)[k]) && DescOf(plan, ListOf(plan, d)[k]) == d
    ensures IndexOf(ListOf(plan, d), ListOf(plan, d)[k]) == k
  {
    assert DescOk(plan, d);
    var list := ListOf(plan, d);
    forall j | 0 <= j < k ensures list[j] != list[k] {
      assert Prio(plan, list[j], list[k]);
    }
    IndexIs(list, k);
  }

  // The other ends of a pipe, by their place.
  lemma PeerFacts(plan: Plan, c: nat, k: nat)
    requires WellFormed(plan) && c < |plan.descs| && k < |Peers(plan, c)|
    requires Creator(plan, c) == c
    ensures var p := Peers(plan, c)[k];
      && p < |plan.descs| && KindOf(plan, p).Pipe? && Creator(plan, p) == c && p != c
      && IndexOf<nat>(Peers(plan, c), p) == k
  {
    assert PeersOk(plan, c);
    IndexIs<nat>(Peers(plan, c), k);
  }

  // The end that creates the pipe of a receiver.
  lemma CreatorFacts(plan: Plan, d: nat)
    requires WellFormed(plan) && d < |plan.descs| && KindOf(plan, d).Pipe?
    ensures var c := Creator(plan, d);
      && c < |plan.descs| && KindOf(plan, c).Pipe? && Creator(plan, c) == c
      && (d != c ==> d in Peers(plan, c) && Prio(plan, Master(plan, c), Master(plan, d)))
  {
    assert PipeOk(plan, d);
  }

  // All there is to know about the role of a descriptor.
  lemma RoleFacts(plan: Plan, f: Fle)
    requires WellFormed(plan) && IsFle(plan, f)
    ensures var d := DescOf(plan, f);
      && d < |plan.descs| && f in ListOf(plan, d)
      && (IsMaster(plan, f) || Prio(plan, Master(plan, d), f))
      && IsFle(plan, Master(plan, d)) && DescOf(plan, Master(plan, d)) == d
    ensures Receiver(plan, f) ==>
      var d := DescOf(plan, f);
      var c := Creator(plan, d);
      && c < |plan.descs| && KindOf(plan, c).Pipe? && Creator(plan, c) == c && d in Peers(plan, c)
      && Prio(plan, Master(plan, c), f) && IsFle(plan, Master(plan, c)) && DescOf(plan, Master(plan, c)) == c
  {
    hide WellFormed;
    FleFacts(plan, f);
    DescFacts(plan, DescOf(plan, f));
    if Receiver(plan, f) {
      CreatorFacts(plan, DescOf(plan, f));
      DescFacts(plan, Creator(plan, DescOf(plan, f)));
    }
  }

  // What is needed to follow a step of task t.
  ghost predicate Before(plan: Plan, s: State, t: nat, f: Fle) {
    && WellFormed(plan)
    && t < |s.pcs| == |plan.tasks|
    && PcOk(plan, t, s.pcs[t])
    && IsFle(plan, f) && FleOk(plan, s, f)
  }

  // How far the tasks are with a descriptor has not changed.
  predicate SamePrep(plan: Plan, s: State, s': State, f: Fle) {
    NeedsTransport(plan, f) ==> PrepPast(PcOf(s, f.pid), f.idx) == PrepPast(PcOf(s', f.pid), f.idx)
  }

  predicate SameSent(plan: Plan, s: State, s': State, f: Fle) {
    NeedsTransport(plan, f) ==> Sent(plan, s, f) == Sent(plan, s', f)
  }

  predicate SameTaken(plan: Plan, s: State, s': State, f: Fle) {
    NeedsTransport(plan, f) ==> Taken(plan, s, f) == Taken(plan, s', f)
  }

  predicate SameFilled(plan: Plan, s: State, s': State, f: Fle) {
    Filled(plan, s, f) == Filled(plan, s', f)
  }

  predicate SameReady(s: State, s': State, f: Fle) {
    f in s.ready <==> f in s'.ready
  }

  predicate SameMail(s: State, s': State, f: Fle) {
    MailOf(s, f) == MailOf(s', f)
  }

  predicate SameSlot(s: State, s': State, f: Fle) {
    (f in s.slots <==> f in s'.slots) && SlotOf(s, f) == SlotOf(s', f)
  }

  ghost predicate Same(plan: Plan, s: State, s': State, f: Fle) {
    && SamePrep(plan, s, s', f) && SameReady(s, s', f)
    && SameSent(plan, s, s', f) && SameTaken(plan, s, s', f) && SameMail(s, s', f)
    && SameFilled(plan, s, s', f) && SameSlot(s, s', f)
  }

  lemma Kept(plan: Plan, s: State, s': State, f: Fle)
    requires FleOk(plan, s, f) && Same(plan, s, s', f)
    ensures FleOk(plan, s', f)
  {
    hide Sent, Taken, Filled, NeedsTransport, PrepPast, PcOf, MailOf, SlotOf, Message, FileOf;
  }

  // A transport was opened.
  lemma Readied(plan: Plan, s: State, s': State, f: Fle)
    requires FleOk(plan, s, f) && NeedsTransport(plan, f)
    requires f in s'.ready && PrepPast(PcOf(s', f.pid), f.idx)
    requires SameSent(plan, s, s', f) && SameTaken(plan, s, s', f) && SameMail(s, s', f)
    requires SameFilled(plan, s, s', f) && SameSlot(s, s', f)
    ensures FleOk(plan, s', f)
  {
    hide Sent, Taken, Filled, NeedsTransport, PrepPast, PcOf, MailOf, SlotOf, Message, FileOf;
  }

  // A message was sent.
  lemma Posted(plan: Plan, s: State, s': State, f: Fle)
    requires FleOk(plan, s, f) && NeedsTransport(plan, f)
    requires SamePrep(plan, s, s', f) && SameReady(s, s', f) && f in s.ready
    requires !Sent(plan, s, f) && Sent(plan, s', f) && SameTaken(plan, s, s', f)
    requires MailOf(s', f) == MailOf(s, f) + [Message(plan, f)]
    requires SameFilled(plan, s, s', f) && SameSlot(s, s', f)
    ensures FleOk(plan, s', f)
  {
    hide Sent, Taken, Filled, NeedsTransport, PrepPast, PcOf, MailOf, SlotOf, Message, FileOf;
  }

  // A descriptor was put in place.
  lemma PutIn(plan: Plan, s: State, s': State, f: Fle)
    requires FleOk(plan, s, f)
    requires SamePrep(plan, s, s', f) && SameReady(s, s', f)
    requires SameSent(plan, s, s', f) && SameTaken(plan, s, s', f) && SameMail(s, s', f)
    requires Filled(plan, s', f) && f in s'.slots && SlotOf(s', f) == FileOf(plan, DescOf(plan, f))
    ensures FleOk(plan, s', f)
  {
    hide Sent, Taken, Filled, NeedsTransport, PrepPast, PcOf, MailOf, SlotOf, Message, FileOf;
  }

  // A message was taken, and the descriptor put in place.
  lemma TakenIn(plan: Plan, s: State, s': State, f: Fle)
    requires FleOk(plan, s, f) && NeedsTransport(plan, f)
    requires SamePrep(plan, s, s', f) && SameReady(s, s', f)
    requires SameSent(plan, s, s', f) && Taken(plan, s', f) && MailOf(s, f) != [] && MailOf(s', f) == MailOf(s, f)[1..]
    requires Filled(plan, s', f) && f in s'.slots && SlotOf(s', f) == FileOf(plan, DescOf(plan, f))
    ensures FleOk(plan, s', f)
  {
    hide Sent, Taken, Filled, NeedsTransport, PrepPast, PcOf, MailOf, SlotOf, Message, FileOf;
  }

  lemma Waiting(plan: Plan, s: State, f: Fle)
    requires FleOk(plan, s, f) && MailOf(s, f) != []
    ensures NeedsTransport(plan, f) && Sent(plan, s, f) && MailOf(s, f) == [Message(plan, f)]
  {
    hide Sent, Taken, Filled, NeedsTransport, PrepPast, PcOf, MailOf, SlotOf, Message, FileOf;
  }

  // Task t has moved on, and no other task.
  ghost predicate Moves(s: State, s': State, t: nat, pc: Pc) {
    forall u: nat :: PcOf(s', u) == if u == t then pc else PcOf(s, u)
  }

  // What a step does to the tasks and to what belongs to a descriptor it does not touch.

  lemma Moved(s: State, t: nat, pc: Pc, f: Fle)
    requires t < |s.pcs|
    ensures var s' := Move(s, t, pc);
      Moves(s, s', t, pc) && SameReady(s, s', f) && SameMail(s, s', f) && SameSlot(s, s', f)
  {
  }

  lemma {:induction false} PrepEffect(plan: Plan, s: State, t: nat, i: nat, f: Fle)
    requires t < |s.pcs|
    ensures var s' := StepPrep(plan, s, t, i);
      && Moves(s, s', t, if i < |Files(plan, t)| then Prep(i + 1) else Open(0))
      && (f in s'.ready <==> f in s.ready || (f == Fle(t, i) && i < |Files(plan, t)| && NeedsTransport(plan, f)))
      && SameMail(s, s', f) && SameSlot(s, s', f)
  {
    hide NeedsTransport, Files;
  }

  lemma PrepKeeps(plan: Plan, s: State, t: nat, i: nat, f: Fle)
    requires Before(plan, s, t, f) && s.pcs[t] == Prep(i)
    ensures FleOk(plan, StepPrep(plan, s, t, i), f)
  {
    hide WellFormed, IndexOf, FleOk, DescOf, Master, IsMaster, Foreign, Receiver, NeedsTransport, StepPrep, Move;
    hide SameMail, SameSlot;
    var s' := StepPrep(plan, s, t, i);
    PrepEffect(plan, s, t, i, f);
    if f == Fle(t, i) && NeedsTransport(plan, f) {
      Readied(plan, s, s', f);
    } else {
      Kept(plan, s, s', f);
    }
  }

  lemma OpenAsEffect(plan: Plan, s: State, t: nat, i: nat, o: Obj, f: Fle)
    requires t < |s.pcs|
    ensures var s' := OpenAs(plan, s, t, i, o);
      && Moves(s, s', t, Serving(i, 0)) && SameReady(s, s', f) && SameMail(s, s', f)
      && (if f == Fle(t, i) then f in s'.slots && SlotOf(s', f) == o else SameSlot(s, s', f))
  {
    hide DescOf;
  }

  // A task is through with opening: it goes on to receive, if it has to.
  lemma OpenEndKeeps(plan: Plan, s: State, t: nat, i: nat, f: Fle)
    requires Before(plan, s, t, f) && s.pcs[t] == Open(i) && i == |Files(plan, t)|
    ensures FleOk(plan, Move(s, t, if WantsRecv(plan, t) then Recv(0) else Done), f)
  {
    hide WellFormed, IndexOf, FleOk, DescOf, Move, KindOf, Master;
    hide SameReady, SameMail, SameSlot;
    var pc := if WantsRecv(plan, t) then Recv(0) else Done;
    var s' := Move(s, t, pc);
    Moved(s, t, pc, f);
    RoleFacts(plan, f);
    assert Foreign(plan, f) && f.pid == t ==> WantsRecv(plan, t);
    Kept(plan, s, s', f);
  }

  // Not the master: nothing to open.
  lemma OpenSkipKeeps(plan: Plan, s: State, t: nat, i: nat, f: Fle)
    requires Before(plan, s, t, f) && s.pcs[t] == Open(i) && i < |Files(plan, t)| && !IsMaster(plan, Fle(t, i))
    ensures FleOk(plan, Move(s, t, Open(i + 1)), f)
  {
    hide WellFormed, IndexOf, FleOk, DescOf, Move, KindOf, Master;
    hide SameReady, SameMail, SameSlot;
    Moved(s, t, Open(i + 1), f);
    RoleFacts(plan, f);
    Kept(plan, s, Move(s, t, Open(i + 1)), f);
  }

  lemma OpenPipeKeeps(plan: Plan, s: State, t: nat, i: nat, f: Fle)
    requires Before(plan, s, t, f) && s.pcs[t] == Open(i)
    ensures FleOk(plan, Move(s, t, Sending(i, 0)), f)
  {
    hide WellFormed, IndexOf, FleOk, DescOf, Move, KindOf, Master;
    hide SameReady, SameMail, SameSlot;
    Moved(s, t, Sending(i, 0), f);
    Kept(plan, s, Move(s, t, Sending(i, 0)), f);
  }

  lemma OpenRegularKeeps(plan: Plan, s: State, t: nat, i: nat, f: Fle)
    requires Before(plan, s, t, f) && s.pcs[t] == Open(i)
    requires i < |Files(plan, t)| && IsMaster(plan, Fle(t, i)) && !KindOf(plan, DescOf(plan, Fle(t, i))).Pipe?
    ensures FleOk(plan, OpenAs(plan, s, t, i, Opened(DescOf(plan, Fle(t, i)))), f)
  {
    hide WellFormed, IndexOf, FleOk, DescOf, OpenAs, Master;
    hide SameReady, SameMail;
    var o := Opened(DescOf(plan, Fle(t, i)));
    var s' := OpenAs(plan, s, t, i, o);
    OpenAsEffect(plan, s, t, i, o, f);
    RoleFacts(plan, f);
    if f == Fle(t, i) {
      PutIn(plan, s, s', f);
    } else {
      Kept(plan, s, s', f);
    }
  }

  lemma OpenReceiverKeeps(plan: Plan, s: State, t: nat, i: nat, f: Fle)
    requires Before(plan, s, t, f) && s.pcs[t] == Open(i)
    requires i < |Files(plan, t)| && Receiver(plan, Fle(t, i)) && MailOf(s, Fle(t, i)) != []
    ensures var g := Fle(t, i);
      FleOk(plan, OpenAs(plan, Take(s, g), t, i, Reopened(plan, DescOf(plan, g), MailOf(s, g)[0])), f)
  {
    hide WellFormed, IndexOf, FleOk, DescOf, OpenAs, Master;
    var g := Fle(t, i);
    var o := Reopened(plan, DescOf(plan, g), MailOf(s, g)[0]);
    var s' := OpenAs(plan, Take(s, g), t, i, o);
    OpenAsEffect(plan, Take(s, g), t, i, o, f);
    RoleFacts(plan, f);
    if f == g {
      Waiting(plan, s, f);
      TakenIn(plan, s, s', f);
    } else {
      Kept(plan, s, s', f);
    }
  }

  lemma PostEffect(s: State, t: nat, pc: Pc, g: Fle, o: Obj, f: Fle)
    requires t < |s.pcs| && g in s.ready
    ensures var s' := Move(Post(s, g, o), t, pc);
      && Moves(s, s', t, pc) && SameReady(s, s', f) && SameSlot(s, s', f)
      && MailOf(s', f) == if f == g then MailOf(s, f) + [o] else MailOf(s, f)
  {
  }

  lemma PutEffect(s: State, t: nat, pc: Pc, g: Fle, o: Obj, f: Fle)
    requires t < |s.pcs|
    ensures var s' := Move(Put(s, g, o), t, pc);
      && Moves(s, s', t, pc) && SameReady(s, s', f) && SameMail(s, s', f)
      && (if f == g then f in s'.slots && SlotOf(s', f) == o else SameSlot(s, s', f))
  {
  }

  // An end of a new pipe is sent to a peer.
  lemma SendKeeps(plan: Plan, s: State, t: nat, i: nat, k: nat, f: Fle)
    requires Before(plan, s, t, f) && s.pcs[t] == Sending(i, k)
    requires var peers := Peers(plan, DescOf(plan, Fle(t, i))); k < |peers| && Master(plan, peers[k]) in s.ready
    ensures var p := Peers(plan, DescOf(plan, Fle(t, i)))[k];
      FleOk(plan, Move(Post(s, Master(plan, p), EndOf(plan, p)), t, Sending(i, k + 1)), f)
  {
    hide WellFormed, IndexOf, FleOk, DescOf, Master, Move, Post, EndOf, Peers, KindOf, Creator;
    hide SameReady, SameSlot;
    var d := DescOf(plan, Fle(t, i));
    var p := Peers(plan, d)[k];
    var g := Master(plan, p);
    var s' := Move(Post(s, g, EndOf(plan, p)), t, Sending(i, k + 1));
    PostEffect(s, t, Sending(i, k + 1), g, EndOf(plan, p), f);
    RoleFacts(plan, f);
    RoleFacts(plan, Fle(t, i));
    PeerFacts(plan, d, k);
    DescFacts(plan, p);
    if f == g {
      Posted(plan, s, s', f);
    } else {
      Kept(plan, s, s', f);
    }
  }

  // The creator's own end is the open file it should have.
  lemma OwnEnd(plan: Plan, d: nat)
    requires KindOf(plan, d).Pipe?
    ensures Reopened(plan, d, EndOf(plan, d)) == FileOf(plan, d)
  {
  }

  // The creator keeps its own end.
  lemma OwnEndKeeps(plan: Plan, s: State, t: nat, i: nat, k: nat, f: Fle)
    requires Before(plan, s, t, f) && s.pcs[t] == Sending(i, k)
    requires k == |Peers(plan, DescOf(plan, Fle(t, i)))|
    ensures FleOk(plan, OpenAs(plan, s, t, i, FileOf(plan, DescOf(plan, Fle(t, i)))), f)
  {
    hide WellFormed, IndexOf, FleOk, DescOf, OpenAs, Master, FileOf, ListOf, KindOf, Creator, Peers;
    hide SameReady, SameMail;
    var o := FileOf(plan, DescOf(plan, Fle(t, i)));
    var s' := OpenAs(plan, s, t, i, o);
    OpenAsEffect(plan, s, t, i, o, f);
    RoleFacts(plan, f);
    if f == Fle(t, i) {
      PutIn(plan, s, s', f);
    } else {
      Kept(plan, s, s', f);
    }
  }

  // A file is served to a descriptor of the same task.
  lemma ServeSelfKeeps(plan: Plan, s: State, t: nat, i: nat, k: nat, f: Fle)
    requires Before(plan, s, t, f) && s.pcs[t] == Serving(i, k)
    requires var list := ListOf(plan, DescOf(plan, Fle(t, i))); k < |list| && list[k].pid == t
    requires SlotOf(s, Fle(t, i)) == FileOf(plan, DescOf(plan, Fle(t, i)))
    ensures var g := ListOf(plan, DescOf(plan, Fle(t, i)))[k];
      FleOk(plan, Move(Put(s, g, SlotOf(s, Fle(t, i))), t, Serving(i, k + 1)), f)
  {
    hide WellFormed, IndexOf, FleOk, DescOf, Master, Move, Put, FileOf, ListOf, KindOf, Creator;
    hide SameReady, SameMail;
    var d := DescOf(plan, Fle(t, i));
    var g, o, pc := ListOf(plan, d)[k], SlotOf(s, Fle(t, i)), Serving(i, k + 1);
    var s' := Move(Put(s, g, o), t, pc);
    PutEffect(s, t, pc, g, o, f);
    RoleFacts(plan, Fle(t, i));
    RoleFacts(plan, f);
    ListFacts(plan, d, k);
    if f == g {
      PutIn(plan, s, s', f);
    } else {
      Kept(plan, s, s', f);
    }
  }

  // A file is served to another task.
  lemma ServePeerKeeps(plan: Plan, s: State, t: nat, i: nat, k: nat, f: Fle)
    requires Before(plan, s, t, f) && s.pcs[t] == Serving(i, k)
    requires var list := ListOf(plan, DescOf(plan, Fle(t, i))); k < |list| && list[k].pid != t && list[k] in s.ready
    requires SlotOf(s, Fle(t, i)) == FileOf(plan, DescOf(plan, Fle(t, i)))
    ensures var g := ListOf(plan, DescOf(plan, Fle(t, i)))[k];
      FleOk(plan, Move(Post(s, g, SlotOf(s, Fle(t, i))), t, Serving(i, k + 1)), f)
  {
    hide WellFormed, IndexOf, FleOk, DescOf, Master, Move, Post, FileOf, ListOf, KindOf, Creator;
    hide SameReady, SameSlot;
    var d := DescOf(plan, Fle(t, i));
    var g, o, pc := ListOf(plan, d)[k], SlotOf(s, Fle(t, i)), Serving(i, k + 1);
    var s' := Move(Post(s, g, o), t, pc);
    PostEffect(s, t, pc, g, o, f);
    RoleFacts(plan, Fle(t, i));
    RoleFacts(plan, f);
    ListFacts(plan, d, k);
    if f == g {
      Posted(plan, s, s', f);
    } else {
      Kept(plan, s, s', f);
    }
  }

  lemma ServeEndKeeps(plan: Plan, s: State, t: nat, i: nat, k: nat, f: Fle)
    requires Before(plan, s, t, f) && s.pcs[t] == Serving(i, k)
    requires k == |ListOf(plan, DescOf(plan, Fle(t, i)))|
    ensures FleOk(plan, Move(s, t, Open(i + 1)), f)
  {
    hide WellFormed, IndexOf, FleOk, DescOf, Move, KindOf, Master;
    hide SameReady, SameMail, SameSlot;
    Moved(s, t, Open(i + 1), f);
    RoleFacts(plan, f);
    Kept(plan, s, Move(s, t, Open(i + 1)), f);
  }

  lemma TakeEffect(s: State, t: nat, pc: Pc, g: Fle, f: Fle)
    requires t < |s.pcs| && MailOf(s, g) != []
    ensures var s' := Move(Put(Take(s, g), g, MailOf(s, g)[0]), t, pc);
      && Moves(s, s', t, pc) && SameReady(s, s', f)
      && (if f == g then f in s'.slots && SlotOf(s', f) == MailOf(s, g)[0] && MailOf(s', f) == MailOf(s, f)[1..]
          else SameMail(s, s', f) && SameSlot(s, s', f))
  {
  }

  lemma RecvKeeps(plan: Plan, s: State, t: nat, i: nat, f: Fle)
    requires Before(plan, s, t, f) && s.pcs[t] == Recv(i)
    requires i < |Files(plan, t)| && Foreign(plan, Fle(t, i)) && MailOf(s, Fle(t, i)) != []
    ensures FleOk(plan, StepRecv(plan, s, t, i), f)
  {
    var g := Fle(t, i);
    var s' := Move(Put(Take(s, g), g, MailOf(s, g)[0]), t, Recv(i + 1));
    assert s' == StepRecv(plan, s, t, i);
    hide WellFormed, IndexOf, FleOk, DescOf, Move, Put, Take, KindOf, Master, FileOf;
    TakeEffect(s, t, Recv(i + 1), g, f);
    if f == g {
      Waiting(plan, s, f);
      TakenIn(plan, s, s', f);
    } else {
      Kept(plan, s, s', f);
    }
  }

  lemma RecvSkipKeeps(plan: Plan, s: State, t: nat, i: nat, f: Fle)
    requires Before(plan, s, t, f) && s.pcs[t] == Recv(i)
    requires i < |Files(plan, t)| ==> !Foreign(plan, Fle(t, i))
    ensures FleOk(plan, Move(s, t, if i < |Files(plan, t)| then Recv(i + 1) else Done), f)
  {
    hide WellFormed, IndexOf, FleOk, DescOf, Move, KindOf, Master;
    hide SameReady, SameMail, SameSlot;
    var pc := if i < |Files(plan, t)| then Recv(i + 1) else Done;
    Moved(s, t, pc, f);
    Kept(plan, s, Move(s, t, pc), f);
  }

  // Every step keeps what belongs to a descriptor in order.
  lemma StepKeepsFle(plan: Plan, s: State, t: nat, f: Fle)
    requires Before(plan, s, t, f) && CanStep(plan, s, t)
    requires forall g :: IsFle(plan, g) ==> FleOk(plan, s, g)
    ensures FleOk(plan, Step(plan, s, t), f)
  {
    hide WellFormed, FleOk, Move, OpenAs, DescOf, KindOf, IndexOf, Master, ListOf, Peers, Foreign, Reopened, FileOf;
    match s.pcs[t]
    case Prep(i) => PrepKeeps(plan, s, t, i, f);
    case Open(i) =>
      if i >= |Files(plan, t)| {
        OpenEndKeeps(plan, s, t, i, f);
      } else if !IsMaster(plan, Fle(t, i)) {
        OpenSkipKeeps(plan, s, t, i, f);
      } else if Receiver(plan, Fle(t, i)) {
        OpenReceiverKeeps(plan, s, t, i, f);
      } else if KindOf(plan, DescOf(plan, Fle(t, i))).Pipe? {
        OpenPipeKeeps(plan, s, t, i, f);
      } else {
        OpenRegularKeeps(plan, s, t, i, f);
      }
    case Sending(i, k) =>
      if k < |Peers(plan, DescOf(plan, Fle(t, i)))| {
        SendKeeps(plan, s, t, i, k, f);
      } else {
        OwnEnd(plan, DescOf(plan, Fle(t, i)));
        OwnEndKeeps(plan, s, t, i, k, f);
      }
    case Serving(i, k) =>
      var list := ListOf(plan, DescOf(plan, Fle(t, i)));
      MasterHolds(plan, s, t, i, k);
      if k >= |list| {
        ServeEndKeeps(plan, s, t, i, k, f);
      } else if list[k].pid == t {
        ServeSelfKeeps(plan, s, t, i, k, f);
      } else {
        ServePeerKeeps(plan, s, t, i, k, f);
      }
    case Recv(i) =>
      if i < |Files(plan, t)| && Foreign(plan, Fle(t, i)) {
        RecvKeeps(plan, s, t, i, f);
      } else {
        RecvSkipKeeps(plan, s, t, i, f);
      }
    case Done =>
  }

  // A master that serves a file out has it.
  lemma MasterHolds(plan: Plan, s: State, t: nat, i: nat, k: nat)
    requires t < |s.pcs| == |plan.tasks| && s.pcs[t] == Serving(i, k) && PcOk(plan, t, s.pcs[t])
    requires forall g :: IsFle(plan, g) ==> FleOk(plan, s, g)
    ensures SlotOf(s, Fle(t, i)) == FileOf(plan, DescOf(plan, Fle(t, i)))
  {
    hide FileOf, SlotOf, MailOf, Sent, Taken;
    assert IsFle(plan, Fle(t, i)) && FleOk(plan, s, Fle(t, i));
  }

  // What is needed to follow a step of task t for a file.
  ghost predicate BeforeDesc(plan: Plan, s: State, t: nat, d: nat) {
    && WellFormed(plan)
    && t < |s.pcs| == |plan.tasks|
    && PcOk(plan, t, s.pcs[t])
    && d < |plan.descs| && OpensOk(plan, s, d)
  }

  // Where a task is after a step.
  ghost function NextPc(plan: Plan, t: nat, pc: Pc): Pc {
    match pc
    case Prep(i) => if i < |Files(plan, t)| then Prep(i + 1) else Open(0)
    case Open(i) =>
      if i >= |Files(plan, t)| then if WantsRecv(plan, t) then Recv(0) else Done
      else if !IsMaster(plan, Fle(t, i)) then Open(i + 1)
      else if Receiver(plan, Fle(t, i)) || !KindOf(plan, DescOf(plan, Fle(t, i))).Pipe? then Serving(i, 0)
      else Sending(i, 0)
    case Sending(i, k) => if k < |Peers(plan, DescOf(plan, Fle(t, i)))| then Sending(i, k + 1) else Serving(i, 0)
    case Serving(i, k) => if k < |ListOf(plan, DescOf(plan, Fle(t, i)))| then Serving(i, k + 1) else Open(i + 1)
    case Recv(i) => if i < |Files(plan, t)| then Recv(i + 1) else Done
    case Done => Done
  }

  // Where a step leaves the tasks, and which files are then opened.
  ghost predicate Shape(plan: Plan, s: State, s': State, t: nat, pc: Pc) {
    && t < |s.pcs| && s'.pcs == s.pcs[t := pc]
    && s'.opens == if pc.Serving? && pc.k == 0 then s.opens + [DescOf(plan, Fle(t, pc.i))] else s.opens
  }

  lemma PrepShape(plan: Plan, s: State, t: nat, i: nat)
    requires t < |s.pcs|
    ensures Shape(plan, s, StepPrep(plan, s, t, i), t, NextPc(plan, t, Prep(i)))
  {
    hide DescOf, NeedsTransport;
  }

  lemma OpenAsShape(plan: Plan, s: State, s1: State, t: nat, i: nat, o: Obj)
    requires t < |s.pcs| && s1.pcs == s.pcs && s1.opens == s.opens
    ensures Shape(plan, s, OpenAs(plan, s1, t, i, o), t, Serving(i, 0))
  {
    hide DescOf;
  }

  lemma OpenShape(plan: Plan, s: State, t: nat, i: nat)
    requires t < |s.pcs| && (i < |Files(plan, t)| && Receiver(plan, Fle(t, i)) ==> MailOf(s, Fle(t, i)) != [])
    ensures Shape(plan, s, StepOpen(plan, s, t, i), t, NextPc(plan, t, Open(i)))
  {
    hide DescOf, KindOf, IsMaster, Receiver, WantsRecv, MailOf, Reopened, OpenAs;
    var f := Fle(t, i);
    if i < |Files(plan, t)| && Receiver(plan, f) {
      OpenAsShape(plan, s, Take(s, f), t, i, Reopened(plan, DescOf(plan, f), MailOf(s, f)[0]));
    } else {
      OpenAsShape(plan, s, s, t, i, Opened(DescOf(plan, f)));
    }
  }

  lemma SendingShape(plan: Plan, s: State, t: nat, i: nat, k: nat)
    requires t < |s.pcs|
    ensures Shape(plan, s, StepSending(plan, s, t, i, k), t, NextPc(plan, t, Sending(i, k)))
  {
    hide DescOf, MailOf, Reopened, OpenAs, EndOf, Peers, Master;
    var d := DescOf(plan, Fle(t, i));
    OpenAsShape(plan, s, s, t, i, Reopened(plan, d, EndOf(plan, d)));
  }

  lemma ServingShape(plan: Plan, s: State, t: nat, i: nat, k: nat)
    requires t < |s.pcs|
    ensures Shape(plan, s, StepServing(plan, s, t, i, k), t, NextPc(plan, t, Serving(i, k)))
  {
    hide DescOf, MailOf, ListOf, SlotOf;
  }

  lemma RecvShape(plan: Plan, s: State, t: nat, i: nat)
    requires t < |s.pcs| && (i < |Files(plan, t)| && Foreign(plan, Fle(t, i)) ==> MailOf(s, Fle(t, i)) != [])
    ensures Shape(plan, s, StepRecv(plan, s, t, i), t, NextPc(plan, t, Recv(i)))
  {
    hide DescOf, Foreign, MailOf, Files;
  }

  // A step moves its task on, and opens the master's file when serving it out begins.
  lemma StepShape(plan: Plan, s: State, t: nat)
    requires t < |s.pcs| && CanStep(plan, s, t)
    ensures Shape(plan, s, Step(plan, s, t), t, NextPc(plan, t, s.pcs[t]))
  {
    hide DescOf, KindOf, ListOf, Peers, Foreign, IsMaster, Receiver, NeedsTransport, WantsRecv, SlotOf, Master, EndOf;
    hide Reopened, StepPrep, StepOpen, StepSending, StepServing, StepRecv;
    match s.pcs[t]
    case Prep(i) => PrepShape(plan, s, t, i);
    case Open(i) => OpenShape(plan, s, t, i);
    case Sending(i, k) => SendingShape(plan, s, t, i, k);
    case Serving(i, k) => ServingShape(plan, s, t, i, k);
    case Recv(i) => RecvShape(plan, s, t, i);
    case Done =>
  }

  // The invariant for the stages: what a task does next is in order too.
  lemma StepKeepsPc(plan: Plan, t: nat, pc: Pc)
    requires PcOk(plan, t, pc)
    ensures PcOk(plan, t, NextPc(plan, t, pc))
  {
    hide DescOf, ListOf, Peers, Master;
  }

  // No file is opened twice.
  lemma StepKeepsOpens(plan: Plan, s: State, t: nat, d: nat)
    requires BeforeDesc(plan, s, t, d) && CanStep(plan, s, t)
    ensures OpensOk(plan, Step(plan, s, t), d)
  {
    hide WellFormed, Step, CanStep, DescOf, Master, WantsRecv, ListOf, Peers;
    StepShape(plan, s, t);
    if ListOf(plan, d) != [] {
      DescFacts(plan, d);
    }
    var pc := NextPc(plan, t, s.pcs[t]);
    if pc.Serving? && pc.k == 0 {
      var e := DescOf(plan, Fle(t, pc.i));
      RoleFacts(plan, Fle(t, pc.i));
      assert multiset(s.opens + [e]) == multiset(s.opens) + multiset{e};
    }
  }

  // Every step keeps the invariant.
  lemma StepKeeps(plan: Plan, s: State, t: nat)
    requires WellFormed(plan) && Inv(plan, s) && t < |s.pcs| && CanStep(plan, s, t)
    ensures Inv(plan, Step(plan, s, t))
  {
    hide WellFormed, Step, CanStep, PcOk, FleOk, OpensOk, NextPc;
    StepShape(plan, s, t);
    StepKeepsPc(plan, t, s.pcs[t]);
    var s' := Step(plan, s, t);
    forall f | IsFle(plan, f) ensures FleOk(plan, s', f) {
      StepKeepsFle(plan, s, t, f);
    }
    forall d | 0 <= d < |plan.descs| ensures OpensOk(plan, s', d) {
      StepKeepsOpens(plan, s, t, d);
    }
  }

  lemma StartIsOk(plan: Plan)
    requires WellFormed(plan)
    ensures Inv(plan, Start(plan))
  {
    hide WellFormed;
    var s := Start(plan);
    forall f | IsFle(plan, f) ensures FleOk(plan, s, f) {
      hide DescOf, IndexOf, Master;
      RoleFacts(plan, f);
    }
    forall d | 0 <= d < |plan.descs| ensures OpensOk(plan, s, d) {
      hide DescOf, Master;
      if ListOf(plan, d) != [] {
        DescFacts(plan, d);
      }
    }
  }

  // A task's turn: it goes on, unless it has to wait.
  function Turn(plan: Plan, s: State, t: nat): State {
    if t < |s.pcs| && CanStep(plan, s, t) then Step(plan, s, t) else s
  }

  // A run, given by the order in which the tasks get their turns.
  function Run(plan: Plan, s: State, turns: seq<nat>): State
    decreases |turns|
  {
    if turns == [] then s else Run(plan, Turn(plan, s, turns[0]), turns[1..])
  }

  // The invariant holds throughout every run.
  lemma {:induction false} RunKeeps(plan: Plan, s: State, turns: seq<nat>)
    requires WellFormed(plan) && Inv(plan, s)
    ensures Inv(plan, Run(plan, s, turns))
    decreases |turns|
  {
    hide WellFormed, Inv, Step, CanStep;
    if turns != [] {
      if turns[0] < |s.pcs| && CanStep(plan, s, turns[0]) {
        StepKeeps(plan, s, turns[0]);
      }
      RunKeeps(plan, Turn(plan, s, turns[0]), turns[1..]);
    }
  }

  /** In no run is anything sent to a transport that is not there yet. */
  lemma {:induction false} SentToOpen(plan: Plan, turns: seq<nat>, f: Fle)
    requires WellFormed(plan) && IsFle(plan, f)
    ensures var s := Run(plan, Start(plan), turns);
      MailOf(s, f) != [] ==> f in s.ready && NeedsTransport(plan, f) && PrepPast(PcOf(s, f.pid), f.idx)
  {
    hide WellFormed, Run, NeedsTransport, Sent, Taken, Filled, PrepPast, MailOf, PcOf;
    StartIsOk(plan);
    RunKeeps(plan, Start(plan), turns);
    assert FleOk(plan, Run(plan, Start(plan), turns), f);
  }

  ghost predicate AllDone(s: State) {
    forall t :: 0 <= t < |s.pcs| ==> s.pcs[t].Done?
  }

  // In the same task the lower number comes first.
  lemma PrioFirst(plan: Plan, f: Fle, g: Fle)
    requires WellFormed(plan) && IsFle(plan, f) && IsFle(plan, g) && Prio(plan, f, g)
    ensures f.pid < g.pid || (f.pid == g.pid && f.idx < g.idx)
  {
    hide DescOk, PipeOk, PeersOk;
  }

  // A task that waits to receive a pipe end waits for a task of a lower pid that is not done.
  lemma WaitsForCreator(plan: Plan, s: State, f: Fle)
    requires WellFormed(plan) && IsFle(plan, f) && FleOk(plan, s, f) && Receiver(plan, f)
    requires |s.pcs| == |plan.tasks| && s.pcs[f.pid] == Open(f.idx) && MailOf(s, f) == []
    ensures var m := Master(plan, Creator(plan, DescOf(plan, f)));
      m.pid < f.pid && !s.pcs[m.pid].Done?
  {
    hide WellFormed, DescOf, Master, IndexOf;
    RoleFacts(plan, f);
    PrioFirst(plan, Master(plan, Creator(plan, DescOf(plan, f))), f);
  }

  lemma WaitsForMaster(plan: Plan, s: State, f: Fle)
    requires WellFormed(plan) && IsFle(plan, f) && FleOk(plan, s, f) && Foreign(plan, f)
    requires |s.pcs| == |plan.tasks| && s.pcs[f.pid] == Recv(f.idx) && MailOf(s, f) == []
    ensures var m := Master(plan, DescOf(plan, f));
      m.pid < f.pid && !s.pcs[m.pid].Done?
  {
    hide WellFormed, DescOf, Master, IndexOf;
    RoleFacts(plan, f);
  }

  lemma NotReady(plan: Plan, s: State, f: Fle)
    requires IsFle(plan, f) && FleOk(plan, s, f) && NeedsTransport(plan, f) && f !in s.ready
    ensures PcOf(s, f.pid).Prep?
  {
    hide NeedsTransport, Sent, Taken, Filled, MailOf;
  }

  // As long as some task is not done some task can go on: one waits only for tasks that are not done,
  // and waiting for a message only for tasks of lower pids.
  lemma {:induction false} NoDeadlock(plan: Plan, s: State, t: nat) returns (u: nat)
    requires WellFormed(plan) && Inv(plan, s) && t < |s.pcs| && !s.pcs[t].Done?
    ensures u < |s.pcs| && CanStep(plan, s, u)
    decreases t
  {
    hide WellFormed, FleOk, OpensOk, DescOf, Master, IndexOf, KindOf, Peers, ListOf, Creator, MailOf;
    u := t;
    if !CanStep(plan, s, t) {
      match s.pcs[t]
      case Open(i) =>
        var f := Fle(t, i);
        WaitsForCreator(plan, s, f);
        u := NoDeadlock(plan, s, Master(plan, Creator(plan, DescOf(plan, f))).pid);
      case Sending(i, k) =>
        var d := DescOf(plan, Fle(t, i));
        RoleFacts(plan, Fle(t, i));
        PeerFacts(plan, d, k);
        DescFacts(plan, Peers(plan, d)[k]);
        u := Master(plan, Peers(plan, d)[k]).pid;
        NotReady(plan, s, Master(plan, Peers(plan, d)[k]));
      case Serving(i, k) =>
        var d := DescOf(plan, Fle(t, i));
        RoleFacts(plan, Fle(t, i));
        ListFacts(plan, d, k);
        u := ListOf(plan, d)[k].pid;
        NotReady(plan, s, ListOf(plan, d)[k]);
      case Recv(i) =>
        var f := Fle(t, i);
        WaitsForMaster(plan, s, f);
        u := NoDeadlock(plan, s, Master(plan, DescOf(plan, f)).pid);
    }
  }

  // How many more steps a task takes at most.

  function CreateWork(plan: Plan, t: nat, i: nat): nat
    decreases |Files(plan, t)| - i
  {
    if i >= |Files(plan, t)| then |Files(plan, t)| + 3
    else
      var d := DescOf(plan, Fle(t, i));
      |Peers(plan, d)| + |ListOf(plan, d)| + 3 + CreateWork(plan, t, i + 1)
  }

  function Left(plan: Plan, t: nat, pc: Pc): int {
    match pc
    case Prep(i) => |Files(plan, t)| - i + 1 + CreateWork(plan, t, 0)
    case Open(i) => CreateWork(plan, t, i)
    case Sending(i, k) =>
      var d := DescOf(plan, Fle(t, i));
      |Peers(plan, d)| - k + |ListOf(plan, d)| + 2 + CreateWork(plan, t, i + 1)
    case Serving(i, k) => |ListOf(plan, DescOf(plan, Fle(t, i)))| - k + 1 + CreateWork(plan, t, i + 1)
    case Recv(i) => |Files(plan, t)| - i + 1
    case Done => 0
  }

  lemma LeftFalls(plan: Plan, t: nat, pc: Pc)
    requires PcOk(plan, t, pc) && !pc.Done?
    ensures 0 <= Left(plan, t, NextPc(plan, t, pc)) < Left(plan, t, pc)
  {
    hide DescOf, KindOf, IsMaster, Receiver, WantsRecv;
  }

  // How many more steps the first n tasks take together at most.
  function Rank(plan: Plan, pcs: seq<Pc>, n: nat): int
    requires n <= |pcs|
  {
    if n == 0 then 0 else Rank(plan, pcs, n - 1) + Left(plan, n - 1, pcs[n - 1])
  }

  lemma {:induction false} RankUpdate(plan: Plan, pcs: seq<Pc>, t: nat, pc: Pc, n: nat)
    requires n <= |pcs| && t < |pcs|
    ensures Rank(plan, pcs[t := pc], n) ==
      Rank(plan, pcs, n) + if t < n then Left(plan, t, pc) - Left(plan, t, pcs[t]) else 0
  {
    hide Left;
    if n > 0 {
      RankUpdate(plan, pcs, t, pc, n - 1);
    }
  }

  lemma {:induction false} RankNotNegative(plan: Plan, pcs: seq<Pc>, n: nat)
    requires n <= |pcs| && forall t :: 0 <= t < |pcs| ==> PcOk(plan, t, pcs[t])
    ensures Rank(plan, pcs, n) >= 0
  {
    hide PcOk, NextPc, Left;
    if n > 0 {
      RankNotNegative(plan, pcs, n - 1);
      LeftNotNegative(plan, n - 1, pcs[n - 1]);
    }
  }

  lemma LeftNotNegative(plan: Plan, t: nat, pc: Pc)
    requires PcOk(plan, t, pc)
    ensures Left(plan, t, pc) >= 0
  {
  }

  // Every step brings the end nearer.
  lemma {:induction false} StepAdvances(plan: Plan, s: State, t: nat)
    requires Inv(plan, s) && t < |s.pcs| && CanStep(plan, s, t)
    ensures |Step(plan, s, t).pcs| == |s.pcs|
    ensures Rank(plan, Step(plan, s, t).pcs, |s.pcs|) < Rank(plan, s.pcs, |s.pcs|)
  {
    hide Step, FleOk, OpensOk, NextPc, Left, Rank, PcOk;
    StepShape(plan, s, t);
    RankUpdate(plan, s.pcs, t, NextPc(plan, t, s.pcs[t]), |s.pcs|);
    LeftFalls(plan, t, s.pcs[t]);
  }

  // A round of turns in which a task that can go on gets its turn advances the restore.
  lemma {:induction false} RunAdvances(plan: Plan, s: State, turns: seq<nat>, u: nat, ahead: bool)
    requires WellFormed(plan) && Inv(plan, s)
    requires ahead ==> u in turns && u < |s.pcs| && CanStep(plan, s, u)
    ensures Inv(plan, Run(plan, s, turns)) && |Run(plan, s, turns).pcs| == |s.pcs|
    ensures Rank(plan, Run(plan, s, turns).pcs, |s.pcs|) <= Rank(plan, s.pcs, |s.pcs|) - if ahead then 1 else 0
    decreases |turns|
  {
    hide WellFormed, Inv, Step, CanStep, Rank;
    if turns != [] {
      var t := turns[0];
      if t < |s.pcs| && CanStep(plan, s, t) {
        StepKeeps(plan, s, t);
        StepAdvances(plan, s, t);
        RunAdvances(plan, Step(plan, s, t), turns[1..], u, false);
      } else {
        RunAdvances(plan, s, turns[1..], u, ahead);
      }
    }
  }

  // Rounds of turns, one after the other.
  function Rounds(plan: Plan, s: State, rounds: seq<seq<nat>>): State
    decreases |rounds|
  {
    if rounds == [] then s else Rounds(plan, Run(plan, s, rounds[0]), rounds[1..])
  }

  ghost predicate Fair(plan: Plan, rounds: seq<seq<nat>>) {
    forall r, t :: 0 <= r < |rounds| && 0 <= t < |plan.tasks| ==> t in rounds[r]
  }

  // If every task gets a turn in every round then after enough rounds all of them are done.
  lemma {:induction false} FairRunEnds(plan: Plan, s: State, rounds: seq<seq<nat>>)
    requires WellFormed(plan) && Inv(plan, s) && Fair(plan, rounds)
    ensures Inv(plan, Rounds(plan, s, rounds))
    ensures |s.pcs| == |plan.tasks| && (|rounds| >= Rank(plan, s.pcs, |s.pcs|) ==> AllDone(Rounds(plan, s, rounds)))
    decreases |rounds|
  {
    hide WellFormed, PcOk, FleOk, OpensOk, Run, CanStep, Rank;
    RankNotNegative(plan, s.pcs, |s.pcs|);
    if AllDone(s) {
      DoneStays(plan, s, rounds);
    } else {
      var t: nat :| t < |s.pcs| && !s.pcs[t].Done?;
      var u := NoDeadlock(plan, s, t);
      if rounds == [] {
        StepAdvances(plan, s, u);
        StepKeeps(plan, s, u);
        RankNotNegative(plan, Step(plan, s, u).pcs, |s.pcs|);
      } else {
        assert u in rounds[0];
        RunAdvances(plan, s, rounds[0], u, true);
        FairRunEnds(plan, Run(plan, s, rounds[0]), rounds[1..]);
      }
    }
  }

  lemma {:induction false} DoneStays(plan: Plan, s: State, rounds: seq<seq<nat>>)
    requires AllDone(s)
    ensures Rounds(plan, s, rounds) == s
    decreases |rounds|
  {
    if rounds != [] {
      DoneRuns(plan, s, rounds[0]);
      DoneStays(plan, s, rounds[1..]);
    }
  }

  lemma {:induction false} DoneRuns(plan: Plan, s: State, turns: seq<nat>)
    requires AllDone(s)
    ensures Run(plan, s, turns) == s
    decreases |turns|
  {
    if turns != [] {
      DoneRuns(plan, s, turns[1..]);
    }
  }

  // Once all tasks are done each descriptor refers to its file, each file that has descriptors was opened once
  // and no other, and no transport holds a message any more.
  lemma Restored(plan: Plan, s: State)
    requires WellFormed(plan) && Inv(plan, s) && AllDone(s)
    ensures forall f :: IsFle(plan, f) ==>
      f in s.slots && s.slots[f] == FileOf(plan, DescOf(plan, f)) && MailOf(s, f) == []
    ensures forall d :: 0 <= d < |plan.descs| ==> multiset(s.opens)[d] == if ListOf(plan, d) == [] then 0 else 1
  {
    hide WellFormed, FileOf, KindOf;
    forall f | IsFle(plan, f)
      ensures f in s.slots && s.slots[f] == FileOf(plan, DescOf(plan, f)) && MailOf(s, f) == []
    {
      hide DescOf, Master, IndexOf;
      assert FleOk(plan, s, f);
      RoleFacts(plan, f);
    }
    forall d | 0 <= d < |plan.descs| ensures multiset(s.opens)[d] == if ListOf(plan, d) == [] then 0 else 1 {
      hide DescOf, Master;
      assert OpensOk(plan, s, d);
      if ListOf(plan, d) != [] {
        DescFacts(plan, d);
      }
    }
  }

  // Of the ends of a pipe at most one for reading and one for writing are used as they were created.
  ghost predicate EndsDistinct(plan: Plan) {
    forall d, e :: 0 <= d < e < |plan.descs| ==>
      var k, l := KindOf(plan, d), KindOf(plan, e);
      k.Pipe? && l.Pipe? && k.pipe == l.pipe && !k.reopen && !l.reopen ==> k.wronly != l.wronly
  }

  // Under every fair schedule the restore comes to an end, and then two descriptors share an open file
  // if and only if they did when they were dumped.
  lemma {:induction false} SharingRestored(plan: Plan, rounds: seq<seq<nat>>, f: Fle, g: Fle)
    requires WellFormed(plan) && EndsDistinct(plan)
    requires Fair(plan, rounds) && |rounds| >= Rank(plan, Start(plan).pcs, |plan.tasks|)
    requires IsFle(plan, f) && IsFle(plan, g)
    ensures var s := Rounds(plan, Start(plan), rounds);
      && AllDone(s) && f in s.slots && g in s.slots
      && (s.slots[f] == s.slots[g] <==> DescOf(plan, f) == DescOf(plan, g))
      && multiset(s.opens)[DescOf(plan, f)] == 1
  {
    hide WellFormed, Inv, Rounds, Fair, Rank;
    var s := Rounds(plan, Start(plan), rounds);
    StartIsOk(plan);
    FairRunEnds(plan, Start(plan), rounds);
    Restored(plan, s);
    RoleFacts(plan, f);
    RoleFacts(plan, g);
  }

  // The pipe an open file is connected to.
  function PipeBehind(o: Obj): Option<nat> {
    if o.Opened? then None else Some(o.pipe)
  }

  // And two descriptors are ends of one pipe if and only if they were.
  lemma {:induction false} PipesRestored(plan: Plan, rounds: seq<seq<nat>>, f: Fle)
    requires WellFormed(plan)
    requires Fair(plan, rounds) && |rounds| >= Rank(plan, Start(plan).pcs, |plan.tasks|)
    requires IsFle(plan, f)
    ensures var s := Rounds(plan, Start(plan), rounds);
      var k := KindOf(plan, DescOf(plan, f));
      && f in s.slots
      && PipeBehind(s.slots[f]) == (if k.Pipe? then Some(k.pipe) else None)
      && (k.Pipe? ==> s.slots[f].wronly == k.wronly && (s.slots[f].Again? <==> k.reopen))
      && (s.slots[f].Again? ==> s.slots[f].desc == DescOf(plan, f))
  {
    hide WellFormed, Inv, Rounds, Fair, Rank, KindOf, DescOf;
    StartIsOk(plan);
    FairRunEnds(plan, Start(plan), rounds);
    Restored(plan, Rounds(plan, Start(plan), rounds));
  }
}
