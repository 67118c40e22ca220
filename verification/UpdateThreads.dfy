/**
 The update service as concurrent steps: one clock thread, any number of button
 and install presses, one mutex over the model and the offer, and two atomics.
 Every lock section and every atomic access is one step; the network, the
 installer and thread spawning answer as they like.
 */
module UpdateThreads {
  import opened Base
  import opened UpdateModel

  /** The answer of a check, as the release client gives it. */
  datatype Answer = Offered(update: Update) | NothingNewer | Unusable(reason: string)

  /** How an install attempt ended. */
  datatype Outcome = Applied(restart: bool) | Stopped(reason: string)

  type CheckResult = Result<Option<Summary>, string>

  /** Where a thread is: the step it performs next. */
  datatype Pc =
    | ClockTop                                   // evaluate check_due
    | LoadInstalling                             // check_once: first load
    | Mark                                       // check_once: begin_check under the lock
    | FlagOn                                     // checking := true
    | Ask                                        // waiting for the client
    | StoreOffer(update: Update)                 // first lock section of the answer
    | ReadClock(result: CheckResult)
    | Answered(at: int, result: CheckResult)     // second lock section
    | FlagOff                                    // checking := false
    | ButtonMark                                 // check_now: begin_check under the lock
    | ButtonFlagOn
    | ButtonSpawn
    | SwapInstalling                             // install_available
    | BeginInstall                               // begin_download under the lock
    | SpawnInstall(offer: Option<Update>)
    | Verify(update: Update)                     // run_install
    | Download(update: Update)
    | Report(update: Update, outcome: Outcome)
    | Release                                    // installing := false
    | Done

  /** One check of the clock thread: when it was marked, when its answer was timed. */
  datatype Check = Check(start: int, finish: Option<int>)

  /** What the properties read of the past. */
  datatype History = History(
    checks: seq<Check>,        // the clock thread's checks
    buttonMarked: bool,        // a button press has marked a check
    unspawned: bool,           // an install thread could not be started
    installer: Option<nat>)    // the thread that owes `installing` its reset

  datatype Shared = Shared(model: Model, offer: Option<Update>, checking: bool, installing: bool,
                           allowUnsigned: bool, now: int, exited: bool, past: History)
  {
    function Phase(): UpdateModel.Phase {
      model.view.phase
    }
  }

  datatype State = State(shared: Shared, threads: seq<Pc>)

  /** What a step meets from outside. */
  datatype Choice = Choice(answer: Answer, spawned: bool, outcome: Outcome)

  datatype Action = Tick(elapsed: nat) | PressCheck | PressInstall | Run(thread: nat, choice: Choice)

  /** A step: the shared state after it, where its thread stands, and the thread
      it started. */
  datatype Move = Move(shared: Shared, pc: Pc, started: Option<Pc>)

  predicate Init(s: State, adopted: Option<int>) {
    && s.shared.model == Model(NEW_VIEW, adopted) && s.shared.offer == None
    && !s.shared.checking && !s.shared.installing && !s.shared.exited
    && s.shared.past == History([], false, false, None)
    && (s.threads == [ClockTop] || s.threads == [Done])
  }

  /** What the client's answer becomes before it is published. */
  function Judge(allowUnsigned: bool, answer: Answer): Pc {
    match answer
    case Offered(u) =>
      if !u.verified && !allowUnsigned then ReadClock(Err("unsigned")) else StoreOffer(u)
    case NothingNewer => ReadClock(Ok(None))
    case Unusable(reason) => ReadClock(Err(reason))
  }

  /** After a check the clock thread goes back to its loop, a button's ends. */
  function CheckOver(i: nat): Pc {
    if i == 0 then ClockTop else Done
  }

  predicate BeforeAsking(pc: Pc) {
    pc.ClockTop? || pc.LoadInstalling? || pc.Mark? || pc.FlagOn?
  }

  predicate AfterAsking(pc: Pc) {
    pc.Ask? || pc.StoreOffer? || pc.ReadClock? || pc.Answered? || pc.FlagOff?
  }

  predicate ButtonPc(pc: Pc) {
    pc.ButtonMark? || pc.ButtonFlagOn? || pc.ButtonSpawn?
  }

  predicate BeforeDownload(pc: Pc) {
    pc.SwapInstalling? || pc.BeginInstall? || pc.SpawnInstall?
  }

  /** `check_once` up to its question, and the clock's loop around it. */
  function StartCheck(g: Shared, i: nat, pc: Pc): Move {
    if pc.ClockTop? then Move(g, if CheckDue(g.model, g.now) then LoadInstalling else ClockTop, None)
    else if pc.LoadInstalling? then Move(g, if g.installing then CheckOver(i) else Mark, None)
    else if pc.FlagOn? then Move(g.(checking := true), Ask, None)
    else if !BeginCheck(g.model).1 then Move(g, CheckOver(i), None)
    else
      var checks := if i == 0 then g.past.checks + [Check(g.now, None)] else g.past.checks;
      Move(g.(model := BeginCheck(g.model).0, past := g.past.(checks := checks)), FlagOn, None)
  }

  /** The last check's answer was timed at `at`. */
  function Timed(checks: seq<Check>, at: int): seq<Check> {
    if checks == [] then checks
    else checks[|checks| - 1 := checks[|checks| - 1].(finish := Some(at))]
  }

  /** `check_once` from the client's answer on. */
  function EndCheck(g: Shared, i: nat, pc: Pc, answer: Answer): Move {
    if pc.Ask? then Move(g, Judge(g.allowUnsigned, answer), None)
    else if pc.StoreOffer? then
      Move(g.(offer := Some(pc.update)), ReadClock(Ok(Some(FromUpdate(pc.update)))), None)
    else if pc.ReadClock? then Move(g, Answered(g.now, pc.result), None)
    else if pc.Answered? then
      var checks := if i == 0 then Timed(g.past.checks, pc.at) else g.past.checks;
      Move(g.(model := CheckFinished(g.model, pc.at, pc.result).0, past := g.past.(checks := checks)), FlagOff, None)
    else Move(g.(checking := false), CheckOver(i), None)
  }

  /** `check_now`. */
  function PressedCheck(g: Shared, pc: Pc, spawned: bool): Move {
    if pc.ButtonMark? then
      if BeginCheck(g.model).1
      then Move(g.(model := BeginCheck(g.model).0, past := g.past.(buttonMarked := true)), ButtonFlagOn, None)
      else Move(g, Done, None)
    else if pc.ButtonFlagOn? then Move(g.(checking := true), ButtonSpawn, None)
    else Move(g, Done, if spawned then Some(LoadInstalling) else None)
  }

  /** `install_available`, by thread `i` of `n`. */
  function StartInstall(g: Shared, i: nat, n: nat, pc: Pc, spawned: bool): Move {
    if pc.SwapInstalling? then
      if g.installing then Move(g, Done, None)
      else Move(g.(installing := true, past := g.past.(installer := Some(i))), BeginInstall, None)
    else if pc.BeginInstall? then
      if BeginDownload(g.model).1 then Move(g.(model := BeginDownload(g.model).0), SpawnInstall(g.offer), None)
      else Move(g, Release, None)
    else if pc.SpawnInstall? && pc.offer.Some? then
      if spawned then Move(g.(past := g.past.(installer := Some(n))), Done, Some(Verify(pc.offer.value)))
      else Move(g.(past := g.past.(unspawned := true)), Release, None)
    else
      Move(g.(model := Fail(g.model, "there is no update to install"), past := g.past.(installer := None)), Done, None)
  }

  /** `run_install`, and what resets `installing`. */
  function EndInstall(g: Shared, pc: Pc, outcome: Outcome): Move {
    if pc.Verify? then
      Move(g, if !pc.update.verified && !g.allowUnsigned then Report(pc.update, Stopped("unsigned"))
              else Download(pc.update), None)
    else if pc.Download? then Move(g, Report(pc.update, outcome), None)
    else if !pc.Report? then Move(g.(installing := false, past := g.past.(installer := None)), Done, None)
    else if pc.outcome.Stopped? then Move(g.(model := Fail(g.model, pc.outcome.reason)), Release, None)
    else
      Move(g.(model := DownloadFinished(g.model, pc.update.version).0, exited := pc.outcome.restart), Release, None)
  }

  function Step(g: Shared, i: nat, n: nat, pc: Pc, c: Choice): Move {
    if pc.Done? then Move(g, pc, None)
    else if BeforeAsking(pc) then StartCheck(g, i, pc)
    else if AfterAsking(pc) then EndCheck(g, i, pc, c.answer)
    else if ButtonPc(pc) then PressedCheck(g, pc, c.spawned)
    else if BeforeDownload(pc) then StartInstall(g, i, n, pc, c.spawned)
    else EndInstall(g, pc, c.outcome)
  }

  /** Nothing runs once the process has exited. */
  function Next(s: State, a: Action): State {
    if s.shared.exited then s
    else match a
      case Tick(elapsed) => s.(shared := s.shared.(now := s.shared.now + elapsed))
      case PressCheck => s.(threads := s.threads + [ButtonMark])
      case PressInstall => s.(threads := s.threads + [SwapInstalling])
      case Run(i, c) =>
        if i >= |s.threads| then s
        else
          var m := Step(s.shared, i, |s.threads|, s.threads[i], c);
          State(m.shared, s.threads[i := m.pc] + if m.started.Some? then [m.started.value] else [])
  }

  function Behaviour(s: State, actions: seq<Action>): State {
    if actions == [] then s
    else Next(Behaviour(s, actions[..|actions| - 1]), actions[|actions| - 1])
  }

  /** Between a successful mark of `check_once` and its `check_finished`. */
  predicate InCheck(pc: Pc) {
    pc.FlagOn? || pc.Ask? || pc.StoreOffer? || pc.ReadClock? || pc.Answered?
  }

  /** Holds the download phase: between `begin_download` and its end. */
  predicate InDownload(pc: Pc) {
    pc.SpawnInstall? || pc.Verify? || pc.Download? || pc.Report?
  }

  /** An install attempt in flight: owes `installing` its reset. */
  predicate InInstall(pc: Pc) {
    InDownload(pc) || pc.BeginInstall? || pc.Release?
  }

  /** The release a download thread carries. */
  function Carried(pc: Pc): Option<Update>
    requires InDownload(pc)
  {
    if pc.SpawnInstall? then pc.offer else Some(pc.update)
  }

  predicate Announcing(pc: Pc) {
    pc.ReadClock? || pc.Answered?
  }

  /** A summary on its way to the page is that of the stored offer. */
  predicate Announces(pc: Pc, offer: Option<Update>) {
    Announcing(pc) && pc.result.Ok? && pc.result.value.Some? ==>
      offer.Some? && pc.result.value == Some(FromUpdate(offer.value))
  }

  /** The page shows the very release the install path would download. */
  predicate OfferShown(g: Shared) {
    g.offer.Some? && g.model.view.available == Some(FromUpdate(g.offer.value))
  }

  /** What holds of the shared state. */
  predicate SharedInv(g: Shared) {
    && Truthful(g.model.view)
    && (g.Phase() == Available ==> OfferShown(g))
    && (g.past.buttonMarked ==> g.Phase() == Checking)
    && (g.past.unspawned ==> g.Phase() == Downloading)
    && (g.installing <==> g.past.installer.Some?)
    && (g.Phase() == Downloading && !g.past.unspawned ==> g.past.installer.Some?)
    && (g.exited ==> g.Phase() == Ready)
  }

  /** What holds of thread `i` when it stands at `pc`. */
  predicate PcInv(g: Shared, i: nat, pc: Pc) {
    && (InCheck(pc) ==> i == 0 && g.Phase() == Checking && !g.past.buttonMarked)
    && (i == 0 && g.Phase() == Checking && !g.past.buttonMarked ==> InCheck(pc))
    && ((BeforeAsking(pc) || AfterAsking(pc)) && i != 0 ==> g.past.buttonMarked)
    && (ButtonPc(pc) && !pc.ButtonMark? ==> g.past.buttonMarked)
    && (pc.ClockTop? ==> i == 0)
    && (i == 0 ==> BeforeAsking(pc) || AfterAsking(pc) || pc.Done?)
    && Announces(pc, g.offer)
    && (InInstall(pc) <==> g.past.installer == Some(i))
    && (InDownload(pc) ==> g.Phase() == Downloading && !g.past.unspawned && OfferShown(g) && Carried(pc) == g.offer)
    && (g.past.installer == Some(i) && g.Phase() == Downloading && !g.past.unspawned ==> InDownload(pc))
  }

  ghost predicate Inv(s: State) {
    && |s.threads| > 0
    && SharedInv(s.shared)
    && (s.shared.past.installer.Some? ==> s.shared.past.installer.value < |s.threads|)
    && (forall i :: 0 <= i < |s.threads| ==> PcInv(s.shared, i, s.threads[i]))
  }

  // One step keeps what holds of the shared state, of its own thread and of any other.

  lemma StartCheckShared(g: Shared, i: nat, pc: Pc)
    requires SharedInv(g) && !g.exited && PcInv(g, i, pc) && BeforeAsking(pc)
    ensures SharedInv(StartCheck(g, i, pc).shared)
  {
  }

  lemma StartCheckOwn(g: Shared, i: nat, pc: Pc)
    requires SharedInv(g) && !g.exited && PcInv(g, i, pc) && BeforeAsking(pc)
    ensures PcInv(StartCheck(g, i, pc).shared, i, StartCheck(g, i, pc).pc)
  {
  }

  lemma StartCheckOther(g: Shared, i: nat, pc: Pc, j: nat, other: Pc)
    requires SharedInv(g) && !g.exited && PcInv(g, i, pc) && BeforeAsking(pc)
    requires j != i && PcInv(g, j, other)
    ensures PcInv(StartCheck(g, i, pc).shared, j, other)
  {
  }

  lemma EndCheckShared(g: Shared, i: nat, pc: Pc, answer: Answer)
    requires SharedInv(g) && !g.exited && PcInv(g, i, pc) && AfterAsking(pc)
    ensures SharedInv(EndCheck(g, i, pc, answer).shared)
  {
  }

  lemma EndCheckOwn(g: Shared, i: nat, pc: Pc, answer: Answer)
    requires SharedInv(g) && !g.exited && PcInv(g, i, pc) && AfterAsking(pc)
    ensures PcInv(EndCheck(g, i, pc, answer).shared, i, EndCheck(g, i, pc, answer).pc)
  {
  }

  lemma EndCheckOther(g: Shared, i: nat, pc: Pc, answer: Answer, j: nat, other: Pc)
    requires SharedInv(g) && !g.exited && PcInv(g, i, pc) && AfterAsking(pc)
    requires j != i && PcInv(g, j, other)
    ensures PcInv(EndCheck(g, i, pc, answer).shared, j, other)
  {
  }

  lemma PressedCheckShared(g: Shared, i: nat, pc: Pc, spawned: bool)
    requires SharedInv(g) && !g.exited && PcInv(g, i, pc) && ButtonPc(pc)
    ensures SharedInv(PressedCheck(g, pc, spawned).shared)
  {
  }

  lemma PressedCheckOwn(g: Shared, i: nat, pc: Pc, spawned: bool)
    requires SharedInv(g) && !g.exited && PcInv(g, i, pc) && ButtonPc(pc)
    ensures PcInv(PressedCheck(g, pc, spawned).shared, i, PressedCheck(g, pc, spawned).pc)
  {
  }

  lemma PressedCheckOther(g: Shared, i: nat, pc: Pc, spawned: bool, j: nat, other: Pc)
    requires SharedInv(g) && !g.exited && PcInv(g, i, pc) && ButtonPc(pc)
    requires j != i && PcInv(g, j, other)
    ensures PcInv(PressedCheck(g, pc, spawned).shared, j, other)
  {
  }

  lemma StartInstallShared(g: Shared, i: nat, n: nat, pc: Pc, spawned: bool)
    requires SharedInv(g) && !g.exited && PcInv(g, i, pc) && BeforeDownload(pc) && i < n
    ensures SharedInv(StartInstall(g, i, n, pc, spawned).shared)
  {
  }

  lemma StartInstallOwn(g: Shared, i: nat, n: nat, pc: Pc, spawned: bool)
    requires SharedInv(g) && !g.exited && PcInv(g, i, pc) && BeforeDownload(pc) && i < n
    ensures PcInv(StartInstall(g, i, n, pc, spawned).shared, i, StartInstall(g, i, n, pc, spawned).pc)
  {
  }

  lemma StartInstallOther(g: Shared, i: nat, n: nat, pc: Pc, spawned: bool, j: nat, other: Pc)
    requires SharedInv(g) && !g.exited && PcInv(g, i, pc) && BeforeDownload(pc) && i < n
    requires j != i && PcInv(g, j, other) && j < n
    ensures PcInv(StartInstall(g, i, n, pc, spawned).shared, j, other)
  {
  }

  lemma EndInstallShared(g: Shared, i: nat, pc: Pc, outcome: Outcome)
    requires SharedInv(g) && !g.exited && PcInv(g, i, pc) && InInstall(pc) && !BeforeDownload(pc)
    ensures SharedInv(EndInstall(g, pc, outcome).shared)
  {
  }

  lemma EndInstallOwn(g: Shared, i: nat, pc: Pc, outcome: Outcome)
    requires SharedInv(g) && !g.exited && PcInv(g, i, pc) && InInstall(pc) && !BeforeDownload(pc)
    ensures PcInv(EndInstall(g, pc, outcome).shared, i, EndInstall(g, pc, outcome).pc)
  {
  }

  lemma EndInstallOther(g: Shared, i: nat, pc: Pc, outcome: Outcome, j: nat, other: Pc)
    requires SharedInv(g) && !g.exited && PcInv(g, i, pc) && InInstall(pc) && !BeforeDownload(pc)
    requires j != i && PcInv(g, j, other)
    ensures PcInv(EndInstall(g, pc, outcome).shared, j, other)
  {
  }

  lemma StepKeepsOwn(g: Shared, i: nat, n: nat, pc: Pc, c: Choice)
    requires SharedInv(g) && !g.exited && PcInv(g, i, pc) && i < n
    ensures SharedInv(Step(g, i, n, pc, c).shared) && PcInv(Step(g, i, n, pc, c).shared, i, Step(g, i, n, pc, c).pc)
  {
    if pc.Done? {
    } else if BeforeAsking(pc) {
      StartCheckShared(g, i, pc);
      StartCheckOwn(g, i, pc);
    } else if AfterAsking(pc) {
      EndCheckShared(g, i, pc, c.answer);
      EndCheckOwn(g, i, pc, c.answer);
    } else if ButtonPc(pc) {
      PressedCheckShared(g, i, pc, c.spawned);
      PressedCheckOwn(g, i, pc, c.spawned);
    } else if BeforeDownload(pc) {
      StartInstallShared(g, i, n, pc, c.spawned);
      StartInstallOwn(g, i, n, pc, c.spawned);
    } else {
      EndInstallShared(g, i, pc, c.outcome);
      EndInstallOwn(g, i, pc, c.outcome);
    }
  }

  lemma StepKeepsOther(g: Shared, i: nat, n: nat, pc: Pc, c: Choice, j: nat, other: Pc)
    requires SharedInv(g) && !g.exited && PcInv(g, i, pc) && i < n
    requires j != i && j < n && PcInv(g, j, other)
    ensures PcInv(Step(g, i, n, pc, c).shared, j, other)
  {
    if pc.Done? {
    } else if BeforeAsking(pc) {
      StartCheckOther(g, i, pc, j, other);
    } else if AfterAsking(pc) {
      EndCheckOther(g, i, pc, c.answer, j, other);
    } else if ButtonPc(pc) {
      PressedCheckOther(g, i, pc, c.spawned, j, other);
    } else if BeforeDownload(pc) {
      StartInstallOther(g, i, n, pc, c.spawned, j, other);
    } else {
      EndInstallOther(g, i, pc, c.outcome, j, other);
    }
  }

  /** The thread a step starts, and where an installer is then found. */
  lemma StartedKeeps(g: Shared, i: nat, n: nat, pc: Pc, c: Choice)
    requires SharedInv(g) && !g.exited && PcInv(g, i, pc) && i < n
    requires g.past.installer.Some? ==> g.past.installer.value < n
    ensures var m := Step(g, i, n, pc, c);
            && (m.started.Some? ==> PcInv(m.shared, n, m.started.value))
            && (m.shared.past.installer.Some? ==>
                  m.shared.past.installer.value < n + if m.started.Some? then 1 else 0)
  {
  }

  /** A press that has done nothing yet. */
  lemma NewThreadKeeps(s: State, pc: Pc)
    requires Inv(s) && (pc.ButtonMark? || pc.SwapInstalling?)
    ensures Inv(s.(threads := s.threads + [pc]))
  {
    var s' := s.(threads := s.threads + [pc]);
    forall j | 0 <= j < |s'.threads| ensures PcInv(s'.shared, j, s'.threads[j]) {
      assert j < |s.threads| ==> PcInv(s.shared, j, s.threads[j]);
    }
  }

  lemma RunKeepsInv(s: State, i: nat, c: Choice)
    requires Inv(s) && !s.shared.exited && i < |s.threads|
    ensures Inv(Next(s, Run(i, c)))
  {
    var g, n, pc := s.shared, |s.threads|, s.threads[i];
    assert PcInv(g, i, pc);
    StepKeepsOwn(g, i, n, pc, c);
    StartedKeeps(g, i, n, pc, c);
    var m := Step(g, i, n, pc, c);
    OthersKept(s, i, c);
    MovedInv(s, i, m);
  }

  /** The threads that did not move. */
  lemma OthersKept(s: State, i: nat, c: Choice)
    requires Inv(s) && !s.shared.exited && i < |s.threads|
    ensures forall j :: 0 <= j < |s.threads| && j != i ==>
              PcInv(Step(s.shared, i, |s.threads|, s.threads[i], c).shared, j, s.threads[j])
  {
    forall j | 0 <= j < |s.threads| && j != i
      ensures PcInv(Step(s.shared, i, |s.threads|, s.threads[i], c).shared, j, s.threads[j])
    {
      assert PcInv(s.shared, i, s.threads[i]) && PcInv(s.shared, j, s.threads[j]);
      StepKeepsOther(s.shared, i, |s.threads|, s.threads[i], c, j, s.threads[j]);
    }
  }

  /** A thread's move put into the state. */
  lemma MovedInv(s: State, i: nat, m: Move)
    requires i < |s.threads| && SharedInv(m.shared) && PcInv(m.shared, i, m.pc)
    requires forall j :: 0 <= j < |s.threads| && j != i ==> PcInv(m.shared, j, s.threads[j])
    requires m.started.Some? ==> PcInv(m.shared, |s.threads|, m.started.value)
    requires m.shared.past.installer.Some? ==>
               m.shared.past.installer.value < |s.threads| + if m.started.Some? then 1 else 0
    ensures Inv(State(m.shared, s.threads[i := m.pc] + if m.started.Some? then [m.started.value] else []))
  {
  }

  lemma NextKeepsInv(s: State, a: Action)
    requires Inv(s)
    ensures Inv(Next(s, a))
  {
    if !s.shared.exited {
      match a
      case Tick(elapsed) =>
        forall j | 0 <= j < |s.threads| ensures PcInv(Next(s, a).shared, j, s.threads[j]) {
          assert PcInv(s.shared, j, s.threads[j]);
        }
      case PressCheck => NewThreadKeeps(s, ButtonMark);
      case PressInstall => NewThreadKeeps(s, SwapInstalling);
      case Run(i, c) => if i < |s.threads| { RunKeepsInv(s, i, c); }
    }
  }

  /** The invariant holds in every interleaving. */
  lemma {:induction false} BehaviourKeepsInv(s: State, actions: seq<Action>)
    requires Inv(s)
    ensures Inv(Behaviour(s, actions))
  {
    if actions != [] {
      BehaviourKeepsInv(s, actions[..|actions| - 1]);
      NextKeepsInv(Behaviour(s, actions[..|actions| - 1]), actions[|actions| - 1]);
    }
  }

  /** In every interleaving, an available update is the one the install path
      holds, and a thread that downloads carries the release the page shows.
      The branch for a missing offer is never taken. */
  lemma InstallsWhatThePageShows(s0: State, adopted: Option<int>, actions: seq<Action>)
    requires Init(s0, adopted)
    ensures var s := Behaviour(s0, actions);
            && (s.shared.Phase() == Available ==> OfferShown(s.shared))
            && (forall i :: 0 <= i < |s.threads| && InDownload(s.threads[i]) ==>
                  && s.shared.Phase() == Downloading
                  && OfferShown(s.shared) && Carried(s.threads[i]) == s.shared.offer)
  {
    BehaviourKeepsInv(s0, actions);
    var s := Behaviour(s0, actions);
    forall i | 0 <= i < |s.threads| ensures PcInv(s.shared, i, s.threads[i]) {
    }
  }

  /** In every interleaving one thread at most checks, one at most installs, no
      thread checks while another downloads, and `installing` is set exactly
      while an install attempt owes its reset. */
  lemma OneAtATime(s0: State, adopted: Option<int>, actions: seq<Action>)
    requires Init(s0, adopted)
    ensures var s := Behaviour(s0, actions);
            && (forall i, j :: 0 <= i < |s.threads| && 0 <= j < |s.threads| && i != j ==>
                  && !(InCheck(s.threads[i]) && InCheck(s.threads[j]))
                  && !(InInstall(s.threads[i]) && InInstall(s.threads[j]))
                  && !(InCheck(s.threads[i]) && InDownload(s.threads[j])))
            && (s.shared.installing <==> exists i :: 0 <= i < |s.threads| && InInstall(s.threads[i]))
  {
    BehaviourKeepsInv(s0, actions);
    var s := Behaviour(s0, actions);
    forall i | 0 <= i < |s.threads| ensures PcInv(s.shared, i, s.threads[i]) {
    }
    if s.shared.installing {
      assert InInstall(s.threads[s.shared.past.installer.value]);
    }
  }

  /** Only the clock thread's own step can leave the phase it marked. */
  lemma OthersCannotAnswer(s: State, a: Action)
    requires Inv(s) && InCheck(s.threads[0])
    requires !(a.Run? && a.thread == 0)
    ensures var s' := Next(s, a);
            s'.threads[0] == s.threads[0] && s'.shared.Phase() == Checking
  {
    NextKeepsInv(s, a);
    assert PcInv(Next(s, a).shared, 0, Next(s, a).threads[0]);
  }

  /** How many own steps a marked check still has before it is answered. */
  function StepsToAnswer(pc: Pc): nat {
    match pc
    case FlagOn => 5
    case Ask => 4
    case StoreOffer(_) => 3
    case ReadClock(_) => 2
    case Answered(_, _) => 1
    case _ => 0
  }

  /** Each own step of a marked check brings the answer closer, and the last one
      leaves the phase, whatever the client answered. */
  lemma OwnStepAnswers(s: State, c: Choice)
    requires Inv(s) && InCheck(s.threads[0])
    ensures var s' := Next(s, Run(0, c));
            if StepsToAnswer(s.threads[0]) == 1 then s'.shared.Phase() !in {Checking, Downloading}
            else InCheck(s'.threads[0]) && StepsToAnswer(s'.threads[0]) < StepsToAnswer(s.threads[0])
  {
    assert PcInv(s.shared, 0, s.threads[0]);
  }

  lemma {:induction false} BehaviourCons(s: State, a: Action, actions: seq<Action>)
    ensures Behaviour(s, [a] + actions) == Behaviour(Next(s, a), actions)
  {
    if actions == [] {
      assert [a] + actions == [a] && [a][..0] == [];
    } else {
      var rest := actions[..|actions| - 1];
      BehaviourCons(s, a, rest);
      assert ([a] + actions)[..|[a] + actions| - 1] == [a] + rest;
    }
  }

  const ANY := Choice(NothingNewer, true, Stopped(""))

  /** The clock thread, left to itself, answers the check it marked. */
  lemma {:induction false} ClockAnswers(s: State) returns (more: seq<Action>)
    requires Inv(s) && InCheck(s.threads[0])
    ensures Behaviour(s, more).shared.Phase() !in {Checking, Downloading}
    decreases StepsToAnswer(s.threads[0])
  {
    var a := Run(0, ANY);
    OwnStepAnswers(s, ANY);
    NextKeepsInv(s, a);
    var rest: seq<Action> := [];
    if StepsToAnswer(s.threads[0]) > 1 {
      rest := ClockAnswers(Next(s, a));
    }
    more := [a] + rest;
    BehaviourCons(s, a, rest);
  }

  /** A phase left without a thread to end it is kept for good. */
  lemma {:induction false} StuckForGood(s: State, more: seq<Action>)
    requires Inv(s) && (s.shared.past.buttonMarked || s.shared.past.unspawned)
    ensures var s' := Behaviour(s, more);
            && Inv(s') && s'.shared.Phase() == s.shared.Phase()
            && (s.shared.past.buttonMarked ==> s'.shared.past.buttonMarked)
            && (s.shared.past.unspawned ==> s'.shared.past.unspawned)
  {
    if more != [] {
      var mid, a := Behaviour(s, more[..|more| - 1]), more[|more| - 1];
      StuckForGood(s, more[..|more| - 1]);
      NextKeepsInv(mid, a);
      StuckStep(mid, a);
    }
  }

  lemma StuckStep(s: State, a: Action)
    ensures s.shared.past.buttonMarked ==> Next(s, a).shared.past.buttonMarked
    ensures s.shared.past.unspawned ==> Next(s, a).shared.past.unspawned
  {
    if a.Run? && a.thread < |s.threads| {
      StuckMove(s.shared, a.thread, |s.threads|, s.threads[a.thread], a.choice);
    }
  }

  /** The marks of the two stuck states, once made, are not taken back. */
  predicate KeepsMarks(g: Shared, g': Shared) {
    (g.past.buttonMarked ==> g'.past.buttonMarked) && (g.past.unspawned ==> g'.past.unspawned)
  }

  lemma CheckKeepsMarks(g: Shared, i: nat, pc: Pc, c: Choice)
    ensures KeepsMarks(g, StartCheck(g, i, pc).shared) && KeepsMarks(g, EndCheck(g, i, pc, c.answer).shared)
  {
  }

  lemma PressKeepsMarks(g: Shared, i: nat, n: nat, pc: Pc, c: Choice)
    ensures KeepsMarks(g, PressedCheck(g, pc, c.spawned).shared)
    ensures BeforeDownload(pc) ==> KeepsMarks(g, StartInstall(g, i, n, pc, c.spawned).shared)
  {
  }

  lemma InstallKeepsMarks(g: Shared, pc: Pc, outcome: Outcome)
    requires InInstall(pc) && !BeforeDownload(pc)
    ensures KeepsMarks(g, EndInstall(g, pc, outcome).shared)
  {
  }

  lemma StuckMove(g: Shared, i: nat, n: nat, pc: Pc, c: Choice)
    ensures KeepsMarks(g, Step(g, i, n, pc, c).shared)
  {
    CheckKeepsMarks(g, i, pc, c);
    PressKeepsMarks(g, i, n, pc, c);
    if InInstall(pc) && !BeforeDownload(pc) {
      InstallKeepsMarks(g, pc, c.outcome);
    }
  }

  /** A marked check can still be answered exactly when it was not marked by the
      button: the check the button spawns asks to mark again, is refused by the
      mark the button already made, and goes home. From then on no run leaves
      Checking, so nothing is ever checked or installed again. */
  lemma AnsweredIffClockMarked(s0: State, adopted: Option<int>, actions: seq<Action>)
    requires Init(s0, adopted) && Behaviour(s0, actions).shared.Phase() == Checking
    ensures LeavesChecking(Behaviour(s0, actions)) <==> !Behaviour(s0, actions).shared.past.buttonMarked
  {
    BehaviourKeepsInv(s0, actions);
    if Behaviour(s0, actions).shared.past.buttonMarked {
      MarkedStays(Behaviour(s0, actions));
    } else {
      UnmarkedLeaves(Behaviour(s0, actions));
    }
  }

  lemma BehaviourSnoc(s: State, actions: seq<Action>, a: Action)
    ensures Behaviour(s, actions + [a]) == Next(Behaviour(s, actions), a)
  {
    assert (actions + [a])[..|actions + [a]| - 1] == actions;
  }

  /** What a press does: it marks when the phase allows a check, else nothing. */
  lemma PressMarks(s: State, i: nat, c: Choice)
    requires !s.shared.exited && i < |s.threads| && s.threads[i].ButtonMark?
    ensures var pressed := Next(s, Run(i, c));
            if AllowsCheck(s.shared.Phase())
            then pressed.shared.past.buttonMarked && pressed.shared.Phase() == Checking
            else pressed.shared == s.shared
  {
  }

  /** Some continuation leaves the phase `Checking`. */
  ghost predicate LeavesChecking(s: State) {
    exists more :: Behaviour(s, more).shared.Phase() != Checking
  }

  lemma MarkedStays(s: State)
    requires Inv(s) && s.shared.past.buttonMarked
    ensures !LeavesChecking(s)
  {
    forall more ensures Behaviour(s, more).shared.Phase() == Checking {
      StuckForGood(s, more);
    }
  }

  lemma UnmarkedLeaves(s: State)
    requires Inv(s) && !s.shared.past.buttonMarked
    ensures LeavesChecking(s)
  {
    if s.shared.Phase() == Checking {
      assert PcInv(s.shared, 0, s.threads[0]);
      var more := ClockAnswers(s);
      assert Behaviour(s, more).shared.Phase() != Checking;
    } else {
      assert Behaviour(s, []) == s;
    }
  }

  /** What a caller can check before a press takes effect: from every reachable
      state in which no press has marked, the page stays at `Checking` for good
      exactly when its phase then allows a check. */
  lemma PressSticksIff(s0: State, adopted: Option<int>, actions: seq<Action>, i: nat, c: Choice)
    requires Init(s0, adopted)
    requires var s := Behaviour(s0, actions);
             !s.shared.exited && i < |s.threads| && s.threads[i].ButtonMark? && !s.shared.past.buttonMarked
    ensures LeavesChecking(Next(Behaviour(s0, actions), Run(i, c))) <==> !AllowsCheck(Behaviour(s0, actions).shared.Phase())
  {
    var s := Behaviour(s0, actions);
    BehaviourKeepsInv(s0, actions);
    RunKeepsInv(s, i, c);
    PressMarks(s, i, c);
    if AllowsCheck(s.shared.Phase()) {
      MarkedStays(Next(s, Run(i, c)));
    } else {
      UnmarkedLeaves(Next(s, Run(i, c)));
    }
  }

  /** One press of the button while nothing runs is enough to get there. */
  lemma ButtonSticks(s0: State, adopted: Option<int>)
    requires Init(s0, adopted)
    ensures var s := Behaviour(s0, [PressCheck, Run(1, ANY)]);
            s.shared.past.buttonMarked && s.shared.Phase() == Checking
  {
    BehaviourSnoc(s0, [], PressCheck);
    assert [] + [PressCheck] == [PressCheck];
    BehaviourSnoc(s0, [PressCheck], Run(1, ANY));
    assert [PressCheck] + [Run(1, ANY)] == [PressCheck, Run(1, ANY)];
  }

  /** The check a button spawns never gets to ask: whatever thread runs it, its
      own mark is refused and it ends, leaving everything as it was. */
  lemma SpawnedCheckIsRefused(s: State, i: nat, c: Choice)
    requires Inv(s) && 0 < i < |s.threads| && s.threads[i].Mark?
    ensures Step(s.shared, i, |s.threads|, s.threads[i], c) == Move(s.shared, Done, None)
  {
    assert PcInv(s.shared, i, s.threads[i]);
  }

  function StepsToEnd(pc: Pc): nat {
    match pc
    case SpawnInstall(_) => 4
    case Verify(_) => 3
    case Download(_) => 2
    case Report(_, _) => 1
    case _ => 0
  }

  /** A download that has its thread can always still end. */
  lemma {:induction false} DownloadEnds(s: State) returns (more: seq<Action>)
    requires Inv(s) && s.shared.Phase() == Downloading && !s.shared.past.unspawned
    ensures Behaviour(s, more).shared.Phase() != Downloading
    decreases StepsToEnd(s.threads[s.shared.past.installer.value])
  {
    var i := s.shared.past.installer.value;
    assert PcInv(s.shared, i, s.threads[i]);
    var a := Run(i, ANY);
    var s' := Next(s, a);
    NextKeepsInv(s, a);
    var rest: seq<Action> := [];
    if !s.threads[i].Report? {
      rest := DownloadEnds(s');
    }
    more := [a] + rest;
    BehaviourCons(s, a, rest);
  }

  /** The other phase without a way out: an install whose thread could not be
      started leaves Downloading for good, and only such an install does. */
  lemma DownloadEndsIffSpawned(s0: State, adopted: Option<int>, actions: seq<Action>)
    requires Init(s0, adopted) && Behaviour(s0, actions).shared.Phase() == Downloading
    ensures var s := Behaviour(s0, actions);
            (exists more :: Behaviour(s, more).shared.Phase() != Downloading) <==> !s.shared.past.unspawned
  {
    var s := Behaviour(s0, actions);
    BehaviourKeepsInv(s0, actions);
    if s.shared.past.unspawned {
      forall more ensures Behaviour(s, more).shared.Phase() == Downloading {
        StuckForGood(s, more);
      }
    } else {
      var more := DownloadEnds(s);
    }
  }

  const INTERVAL: int := CHECK_INTERVAL * SECOND

  /** The clock's log when it stands at `pc`, `adopted` being the last check the
      state file knew: its checks are spaced, and the model's time is the last
      of them. */
  ghost predicate ClockInv(g: Shared, pc: Pc, adopted: Option<int>) {
    ClockLog(g.past.checks, g.now, g.model.lastCheckAt, pc, adopted)
  }

  ghost predicate ClockLog(checks: seq<Check>, now: int, last: Option<int>, pc: Pc, adopted: Option<int>) {
    var n := |checks|;
    && (forall k :: 0 <= k < n - 1 ==>
          checks[k].finish.Some? && checks[k + 1].start >= checks[k].finish.value + INTERVAL)
    && (n > 0 && adopted.Some? ==> checks[0].start >= adopted.value + INTERVAL)
    && (InCheck(pc) <==> n > 0 && checks[n - 1].finish.None?)
    && (!InCheck(pc) ==> last == if n == 0 then adopted else checks[n - 1].finish)
    && (forall k :: 0 <= k < n ==>
          checks[k].start <= now && (checks[k].finish.Some? ==> checks[k].start <= checks[k].finish.value))
    && (pc.Answered? ==> checks[n - 1].start <= pc.at)
    && (pc.LoadInstalling? || pc.Mark? ==> last.None? || now - last.value >= INTERVAL)
  }

  /** The clock thread marks a check: it was due, so the last is long answered. */
  lemma ClockMarks(g: Shared, adopted: Option<int>)
    requires ClockInv(g, Mark, adopted) && BeginCheck(g.model).1
    ensures ClockInv(StartCheck(g, 0, Mark).shared, FlagOn, adopted)
  {
    var old', new' := g.past.checks, StartCheck(g, 0, Mark).shared.past.checks;
    assert new' == old' + [Check(g.now, None)];
  }

  /** The clock thread is answered: its last check gets its time. */
  lemma ClockIsAnswered(g: Shared, pc: Pc, answer: Answer, adopted: Option<int>)
    requires pc.Answered? && g.Phase() == Checking && ClockInv(g, pc, adopted)
    ensures ClockInv(EndCheck(g, 0, pc, answer).shared, FlagOff, adopted)
  {
    var old', new' := g.past.checks, EndCheck(g, 0, pc, answer).shared.past.checks;
    assert |new'| == |old'| && forall k :: 0 <= k < |old'| - 1 ==> new'[k] == old'[k];
    assert g.model.view.phase == Checking;
  }

  /** The clock thread's own step. */
  lemma ClockStep(g: Shared, n: nat, pc: Pc, c: Choice, adopted: Option<int>)
    requires PcInv(g, 0, pc) && ClockInv(g, pc, adopted)
    ensures ClockInv(Step(g, 0, n, pc, c).shared, Step(g, 0, n, pc, c).pc, adopted)
  {
    if pc.Mark? && BeginCheck(g.model).1 {
      ClockMarks(g, adopted);
    } else if pc.Answered? {
      ClockIsAnswered(g, pc, c.answer, adopted);
    } else {
      var g' := Step(g, 0, n, pc, c).shared;
      assert g'.past == g.past && g'.model == g.model && g'.now == g.now;
    }
  }

  /** What the clock's log is read from is left alone. */
  predicate SameTimes(g: Shared, g': Shared) {
    g'.past.checks == g.past.checks && g'.model.lastCheckAt == g.model.lastCheckAt && g'.now == g.now
  }

  lemma OtherStartsNoCheck(g: Shared, i: nat, pc: Pc)
    requires SharedInv(g) && PcInv(g, i, pc) && i != 0 && BeforeAsking(pc)
    ensures SameTimes(g, StartCheck(g, i, pc).shared)
  {
  }

  lemma OtherEndsNoCheck(g: Shared, i: nat, pc: Pc, answer: Answer)
    requires PcInv(g, i, pc) && i != 0 && AfterAsking(pc)
    ensures SameTimes(g, EndCheck(g, i, pc, answer).shared)
  {
  }

  lemma PressWritesNoTime(g: Shared, pc: Pc, spawned: bool)
    ensures SameTimes(g, PressedCheck(g, pc, spawned).shared)
  {
  }

  lemma InstallWritesNoTime(g: Shared, i: nat, n: nat, pc: Pc, c: Choice)
    requires InInstall(pc) || pc.SwapInstalling?
    ensures BeforeDownload(pc) ==> SameTimes(g, StartInstall(g, i, n, pc, c.spawned).shared)
    ensures !BeforeDownload(pc) ==> SameTimes(g, EndInstall(g, pc, c.outcome).shared)
  {
  }

  /** Another thread's step: it answers no check, so it writes no time. */
  lemma OtherWritesNoTime(g: Shared, i: nat, n: nat, pc: Pc, c: Choice)
    requires SharedInv(g) && PcInv(g, i, pc) && i != 0
    ensures SameTimes(g, Step(g, i, n, pc, c).shared)
  {
    if pc.Done? {
    } else if BeforeAsking(pc) {
      OtherStartsNoCheck(g, i, pc);
    } else if AfterAsking(pc) {
      OtherEndsNoCheck(g, i, pc, c.answer);
    } else if ButtonPc(pc) {
      PressWritesNoTime(g, pc, c.spawned);
    } else {
      InstallWritesNoTime(g, i, n, pc, c);
    }
  }

  lemma OtherStep(g: Shared, i: nat, n: nat, pc: Pc, c: Choice, clock: Pc, adopted: Option<int>)
    requires SharedInv(g) && PcInv(g, i, pc) && i != 0 && ClockInv(g, clock, adopted)
    ensures ClockInv(Step(g, i, n, pc, c).shared, clock, adopted)
  {
    OtherWritesNoTime(g, i, n, pc, c);
  }

  lemma NextKeepsClock(s: State, a: Action, adopted: Option<int>)
    requires Inv(s) && ClockInv(s.shared, s.threads[0], adopted)
    ensures |Next(s, a).threads| > 0 && ClockInv(Next(s, a).shared, Next(s, a).threads[0], adopted)
  {
    if a.Run? && a.thread < |s.threads| && !s.shared.exited {
      assert PcInv(s.shared, a.thread, s.threads[a.thread]);
      if a.thread == 0 {
        ClockStep(s.shared, |s.threads|, s.threads[0], a.choice, adopted);
      } else {
        OtherStep(s.shared, a.thread, |s.threads|, s.threads[a.thread], a.choice, s.threads[0], adopted);
      }
    }
  }

  lemma {:induction false} BehaviourKeepsClock(s: State, actions: seq<Action>, adopted: Option<int>)
    requires Inv(s) && ClockInv(s.shared, s.threads[0], adopted)
    ensures var s' := Behaviour(s, actions);
            Inv(s') && ClockInv(s'.shared, s'.threads[0], adopted)
  {
    BehaviourKeepsInv(s, actions);
    if actions != [] {
      BehaviourKeepsInv(s, actions[..|actions| - 1]);
      BehaviourKeepsClock(s, actions[..|actions| - 1], adopted);
      NextKeepsClock(Behaviour(s, actions[..|actions| - 1]), actions[|actions| - 1], adopted);
    }
  }

  /** Under a clock that does not go back, every check of the clock thread starts
      at least the interval after the previous one's answer, whatever that
      answer was, and the first at least the interval after the last check the
      state file knew. */
  lemma ChecksAreSpaced(s0: State, adopted: Option<int>, actions: seq<Action>)
    requires Init(s0, adopted)
    ensures var checks := Behaviour(s0, actions).shared.past.checks;
            && (forall k :: 0 <= k < |checks| - 1 ==>
                  checks[k].finish.Some? && checks[k + 1].start >= checks[k].finish.value + INTERVAL)
            && (checks != [] && adopted.Some? ==> checks[0].start >= adopted.value + INTERVAL)
  {
    BehaviourKeepsClock(s0, actions, adopted);
  }
}
