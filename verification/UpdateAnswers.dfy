/**
 What the page shows once the client has answered a check or an install has ended,
 whatever the other threads do in the meantime.
 */
module UpdateAnswers {
  import opened Base
  import opened UpdateModel
  import opened UpdateThreads

  /** A release this build may offer: signed, or unsigned ones are allowed. */
  predicate Trusted(g: Shared, u: Update) {
    u.verified || g.allowUnsigned
  }

  function PcOf(s: State, i: nat): Pc {
    if i < |s.threads| then s.threads[i] else Done
  }

  /** What thread `i` met at its first step. */
  function Met(actions: seq<Action>, i: nat): Option<Choice> {
    if actions == [] then None
    else
      var before, a := Met(actions[..|actions| - 1], i), actions[|actions| - 1];
      if before.Some? then before
      else if a.Run? && a.thread == i then Some(a.choice) else None
  }

  // ---- What an answer shows ----

  /** The longest end of the url without a slash. */
  predicate IsFileName(file: string, url: string) {
    && '/' !in file && |file| <= |url| && url[|url| - |file|..] == file
    && (|file| < |url| ==> url[|url| - |file| - 1] == '/')
  }

  predicate Shows(s: Summary, u: Update) {
    && s.version == u.version && s.epoch == u.epoch && s.channel == u.channel && s.size == u.size
    && s.rollback == u.rollback && s.currentYanked == u.currentYanked && IsFileName(s.fileName, u.url)
  }

  /** The page after the check that was asked in `g` and answered so. */
  predicate Published(g: Shared, answer: Answer, after: Shared) {
    var v := after.model.view;
    match answer
    case Offered(u) =>
      if Trusted(g, u) then
        && v.phase == Available && v.status == Offers(u.channel, u.version) && v.error == None
        && v.available.Some? && Shows(v.available.value, u) && after.offer == Some(u)
        && v.replacement == if u.currentYanked then Some(u.version) else None
      else
        v.phase == Error && v.status == Failed && v.error.Some?
        && v.available == g.model.view.available && after.offer == g.offer
    case NothingNewer =>
      && v.phase == Idle && v.status == UpToDate && v.error == None
      && v.available == None && v.replacement == None && after.offer == g.offer
    case Unusable(reason) =>
      && v.phase == Error && v.status == Failed && v.error == Some(reason)
      && v.available == g.model.view.available && after.offer == g.offer
  }

  /** What the answer has become on its way to the page. */
  predicate Carries(g: Shared, answer: Answer, offer: Option<Update>, result: CheckResult) {
    match answer
    case Offered(u) =>
      if Trusted(g, u) then offer == Some(u) && result.Ok? && result.value.Some? && Shows(result.value.value, u)
      else offer == g.offer && result.Err?
    case NothingNewer => offer == g.offer && result == Ok(None)
    case Unusable(reason) => offer == g.offer && result == Err(reason)
  }

  predicate OnItsWay(g: Shared, answer: Answer, now: Shared, pc: Pc) {
    && now.model == g.model && now.allowUnsigned == g.allowUnsigned && g.now <= now.now
    && match pc
       case StoreOffer(u) => answer == Offered(u) && Trusted(g, u) && now.offer == g.offer
       case ReadClock(result) => Carries(g, answer, now.offer, result)
       case Answered(at, result) => Carries(g, answer, now.offer, result) && g.now <= at <= now.now
       case _ => false
  }

  /** What page and install path read is left alone. */
  predicate SamePage(g: Shared, after: Shared) {
    after.model == g.model && after.offer == g.offer && after.allowUnsigned == g.allowUnsigned && g.now == after.now
  }

  lemma OtherStartsNothing(g: Shared, i: nat, pc: Pc, c: Choice)
    requires PcInv(g, i, pc) && i != 0 && !AllowsCheck(g.Phase())
    ensures BeforeAsking(pc) ==> SamePage(g, StartCheck(g, i, pc).shared)
    ensures AfterAsking(pc) ==> SamePage(g, EndCheck(g, i, pc, c.answer).shared)
    ensures ButtonPc(pc) ==> SamePage(g, PressedCheck(g, pc, c.spawned).shared)
  {
  }

  lemma OtherInstallsNothing(g: Shared, i: nat, n: nat, pc: Pc, c: Choice)
    requires PcInv(g, i, pc) && !AllowsCheck(g.Phase()) && !InDownload(pc)
    ensures BeforeDownload(pc) ==> SamePage(g, StartInstall(g, i, n, pc, c.spawned).shared)
    ensures InInstall(pc) && !BeforeDownload(pc) ==> SamePage(g, EndInstall(g, pc, c.outcome).shared)
  {
  }

  /** While a check or a download is under way, no other thread touches the page. */
  lemma OtherTouchesNothing(s: State, a: Action, owner: nat)
    requires Inv(s) && !AllowsCheck(s.shared.Phase()) && !(a.Run? && a.thread == owner)
    requires owner < |s.threads| && (InCheck(s.threads[owner]) || InDownload(s.threads[owner]))
    ensures var s' := Next(s, a);
            && SamePage(s.shared, s'.shared.(now := s.shared.now)) && s.shared.now <= s'.shared.now
            && PcOf(s', owner) == s.threads[owner]
  {
    if a.Run? && a.thread < |s.threads| && !s.shared.exited {
      assert PcInv(s.shared, owner, s.threads[owner]) && PcInv(s.shared, a.thread, s.threads[a.thread]);
      OtherStep(s.shared, a.thread, |s.threads|, s.threads[a.thread], a.choice, owner, s.threads[owner]);
    }
  }

  lemma OtherStep(g: Shared, i: nat, n: nat, pc: Pc, c: Choice, owner: nat, own: Pc)
    requires SharedInv(g) && PcInv(g, i, pc) && PcInv(g, owner, own) && i != owner && !AllowsCheck(g.Phase())
    requires InCheck(own) || InDownload(own)
    ensures SamePage(g, Step(g, i, n, pc, c).shared)
  {
    if i == 0 {
      ClockWaits(g, n, pc, c);
    } else {
      OtherStartsNothing(g, i, pc, c);
    }
    OtherInstallsNothing(g, i, n, pc, c);
  }

  /** The clock thread, while another downloads. */
  lemma ClockWaits(g: Shared, n: nat, pc: Pc, c: Choice)
    requires PcInv(g, 0, pc) && !AllowsCheck(g.Phase()) && !InCheck(pc)
    ensures SamePage(g, Step(g, 0, n, pc, c).shared)
  {
  }

  lemma OwnAsk(g: Shared, n: nat, c: Choice)
    ensures var m := Step(g, 0, n, Ask, c); OnItsWay(g, c.answer, m.shared, m.pc)
  {
  }

  lemma StoreCarries(g: Shared, answer: Answer, now: Shared, n: nat, u: Update, c: Choice)
    requires OnItsWay(g, answer, now, StoreOffer(u))
    ensures var m := Step(now, 0, n, StoreOffer(u), c); OnItsWay(g, answer, m.shared, m.pc)
  {
    LastSegmentIs(u.url);
    var s := FromUpdate(u);
    assert IsFileName(s.fileName, u.url) && Shows(s, u);
  }

  lemma ReadCarries(g: Shared, answer: Answer, now: Shared, n: nat, result: CheckResult, c: Choice)
    requires OnItsWay(g, answer, now, ReadClock(result))
    ensures var m := Step(now, 0, n, ReadClock(result), c); OnItsWay(g, answer, m.shared, m.pc)
  {
    assert Step(now, 0, n, ReadClock(result), c) == Move(now, Pc.Answered(now.now, result), None);
  }

  /** A result put on the page. */
  lemma CarriedIsPublished(g: Shared, answer: Answer, after: Shared, at: int, result: CheckResult)
    requires g.Phase() == Checking && Truthful(g.model.view) && Carries(g, answer, after.offer, result)
    requires after.model == CheckFinished(g.model, at, result).0
    ensures Published(g, answer, after) && after.model.lastCheckAt == Some(at)
  {
  }

  lemma AnsweredPublishes(g: Shared, answer: Answer, now: Shared, n: nat, at: int, result: CheckResult, c: Choice)
    requires OnItsWay(g, answer, now, Pc.Answered(at, result)) && g.Phase() == Checking && Truthful(g.model.view)
    ensures var m := Step(now, 0, n, Pc.Answered(at, result), c);
            && Published(g, answer, m.shared) && !InCheck(m.pc)
            && m.shared.model.lastCheckAt.Some? && g.now <= m.shared.model.lastCheckAt.value <= m.shared.now
  {
    CarriedIsPublished(g, answer, Step(now, 0, n, Pc.Answered(at, result), c).shared, at, result);
  }

  /** The clock thread's own next step. */
  lemma OwnCheckStep(g: Shared, answer: Answer, now: Shared, n: nat, pc: Pc, c: Choice)
    requires OnItsWay(g, answer, now, pc) && g.Phase() == Checking && Truthful(g.model.view)
    ensures var m := Step(now, 0, n, pc, c);
            if pc.Answered? then
              && Published(g, answer, m.shared) && !InCheck(m.pc)
              && m.shared.model.lastCheckAt.Some? && g.now <= m.shared.model.lastCheckAt.value <= m.shared.now
            else OnItsWay(g, answer, m.shared, m.pc)
  {
    if pc.StoreOffer? {
      StoreCarries(g, answer, now, n, pc.update, c);
    } else if pc.ReadClock? {
      ReadCarries(g, answer, now, n, pc.result, c);
    } else {
      AnsweredPublishes(g, answer, now, n, pc.at, pc.result, c);
    }
  }

  /** Asked, and not yet answered on the page. */
  predicate Underway(s: State, more: seq<Action>, now: State) {
    match Met(more, 0)
    case None => PcOf(now, 0) == Ask && SamePage(s.shared, now.shared.(now := s.shared.now)) && s.shared.now <= now.shared.now
    case Some(c) => OnItsWay(s.shared, c.answer, now.shared, PcOf(now, 0))
  }

  /** The check is under way all along. */
  predicate Asking(s: State, more: seq<Action>) {
    InCheck(PcOf(Behaviour(s, more), 0)) && (more == [] || Asking(s, more[..|more| - 1]))
  }

  /** What page and clock show once it is not any more. */
  predicate Answered(g: Shared, met: Option<Choice>, after: Shared) {
    && met.Some? && Published(g, met.value.answer, after)
    && after.model.lastCheckAt.Some? && g.now <= after.model.lastCheckAt.value <= after.now
  }

  lemma MetSnoc(more: seq<Action>, a: Action, i: nat)
    ensures Met(more + [a], i) == if Met(more, i).Some? then Met(more, i)
                                  else if a.Run? && a.thread == i then Some(a.choice) else None
  {
    assert (more + [a])[..|more + [a]| - 1] == more;
  }

  /** One more action: the check is still under way, or its answer is shown. */
  lemma UnderwayStep(s: State, more: seq<Action>, a: Action)
    requires Inv(s) && PcOf(s, 0) == Ask && Underway(s, more, Behaviour(s, more)) && InCheck(PcOf(Behaviour(s, more), 0))
    ensures var after := Behaviour(s, more + [a]);
            if InCheck(PcOf(after, 0)) then Underway(s, more + [a], after)
            else Answered(s.shared, Met(more + [a], 0), after.shared)
  {
    var mid := Behaviour(s, more);
    BehaviourKeepsInv(s, more);
    BehaviourSnoc(s, more, a);
    MetSnoc(more, a, 0);
    assert PcInv(s.shared, 0, s.threads[0]) && PcInv(mid.shared, 0, mid.threads[0]);
    if !(a.Run? && a.thread == 0) {
      OtherTouchesNothing(mid, a, 0);
    } else if Met(more, 0).None? {
      OwnAsk(mid.shared, |mid.threads|, a.choice);
    } else {
      OwnCheckStep(s.shared, Met(more, 0).value.answer, mid.shared, |mid.threads|, mid.threads[0], a.choice);
    }
  }

  lemma {:induction false} StaysUnderway(s: State, more: seq<Action>)
    requires Inv(s) && PcOf(s, 0) == Ask && Asking(s, more)
    ensures Underway(s, more, Behaviour(s, more))
  {
    if more != [] {
      var front, a := more[..|more| - 1], more[|more| - 1];
      StaysUnderway(s, front);
      assert front + [a] == more;
      UnderwayStep(s, front, a);
    }
  }

  /** From the question to the moment the check is over, with whatever steps of other
      threads in between: the page shows what the client answered, and when. */
  lemma AnswerIsShown(s: State, more: seq<Action>, a: Action)
    requires Inv(s) && PcOf(s, 0) == Ask && Asking(s, more) && !InCheck(PcOf(Behaviour(s, more + [a]), 0))
    ensures Answered(s.shared, Met(more + [a], 0), Behaviour(s, more + [a]).shared)
  {
    StaysUnderway(s, more);
    UnderwayStep(s, more, a);
  }

  // ---- What an install shows ----

  predicate Downloading(s: State, more: seq<Action>, i: nat) {
    var pc := PcOf(Behaviour(s, more), i);
    (pc.Download? || pc.Report?) && (more == [] || Downloading(s, more[..|more| - 1], i))
  }

  /** The page after an install of `u` ended so. */
  predicate Installed(g: Shared, u: Update, met: Option<Choice>, after: Shared) {
    && met.Some?
    && var v := after.model.view;
       match met.value.outcome
       case Applied(restart) =>
         && v == g.model.view.(phase := Ready, status := UpdateModel.Installed(u.version), readyVersion := Some(u.version))
         && after.exited == restart
       case Stopped(reason) =>
         v == g.model.view.(phase := Error, status := Failed, error := Some(reason)) && !after.exited
  }

  predicate Fetching(s: State, u: Update, more: seq<Action>, now: State, i: nat) {
    && now.shared.model == s.shared.model && !now.shared.exited
    && PcOf(now, i) == match Met(more, i) { case None => Download(u) case Some(c) => Report(u, c.outcome) }
  }

  lemma OwnFetchStep(g: Shared, i: nat, n: nat, pc: Pc, u: Update, c: Choice)
    requires g.Phase() == UpdateModel.Downloading && !g.exited
    ensures Step(g, i, n, Download(u), c) == Move(g, Report(u, c.outcome), None)
    ensures pc.Report? && pc.update == u ==>
              var m := Step(g, i, n, pc, c);
              m.pc == Release && Installed(g, u, Some(Choice(c.answer, c.spawned, pc.outcome)), m.shared)
  {
  }

  lemma FetchingStep(s: State, u: Update, more: seq<Action>, a: Action, i: nat)
    requires Inv(s) && PcOf(s, i) == Download(u) && Fetching(s, u, more, Behaviour(s, more), i)
    ensures var after := Behaviour(s, more + [a]);
            if PcOf(after, i).Download? || PcOf(after, i).Report? then Fetching(s, u, more + [a], after, i)
            else Installed(s.shared, u, Met(more + [a], i), after.shared)
  {
    var mid := Behaviour(s, more);
    BehaviourKeepsInv(s, more);
    BehaviourSnoc(s, more, a);
    MetSnoc(more, a, i);
    assert PcInv(mid.shared, i, mid.threads[i]);
    if a.Run? && a.thread == i {
      OwnFetchStep(mid.shared, i, |mid.threads|, mid.threads[i], u, a.choice);
      MovedPc(mid, i, a.choice);
    } else {
      OtherTouchesNothing(mid, a, i);
    }
  }

  lemma {:induction false} StaysFetching(s: State, u: Update, more: seq<Action>, i: nat)
    requires Inv(s) && PcOf(s, i) == Download(u) && Downloading(s, more, i)
    ensures Fetching(s, u, more, Behaviour(s, more), i)
  {
    if more == [] {
      assert PcInv(s.shared, i, s.threads[i]);
    } else {
      var front, a := more[..|more| - 1], more[|more| - 1];
      StaysFetching(s, u, front, i);
      assert front + [a] == more;
      FetchingStep(s, u, front, a, i);
    }
  }

  /** From the download of a release to the moment its thread has reported, with
      whatever steps of other threads in between: the page shows how it ended, and
      nothing else on it has changed. */
  lemma InstallIsShown(s: State, u: Update, more: seq<Action>, a: Action, i: nat)
    requires Inv(s) && PcOf(s, i) == Download(u) && Downloading(s, more, i)
    requires var pc := PcOf(Behaviour(s, more + [a]), i); !pc.Download? && !pc.Report?
    ensures Installed(s.shared, u, Met(more + [a], i), Behaviour(s, more + [a]).shared)
  {
    StaysFetching(s, u, more, i);
    FetchingStep(s, u, more, a, i);
  }

  // ---- Only trusted releases are offered and installed ----

  predicate PcTrusted(g: Shared, pc: Pc) {
    match pc
    case StoreOffer(u) => Trusted(g, u)
    case Download(u) => Trusted(g, u)
    case _ => true
  }

  predicate AllTrusted(s: State) {
    && (s.shared.offer.Some? ==> Trusted(s.shared, s.shared.offer.value))
    && forall i :: 0 <= i < |s.threads| ==> PcTrusted(s.shared, s.threads[i])
  }

  lemma CheckKeepsTrust(g: Shared, i: nat, pc: Pc, c: Choice)
    requires PcTrusted(g, pc) && (g.offer.Some? ==> Trusted(g, g.offer.value)) && (BeforeAsking(pc) || AfterAsking(pc))
    ensures var m := if BeforeAsking(pc) then StartCheck(g, i, pc) else EndCheck(g, i, pc, c.answer);
            m.shared.allowUnsigned == g.allowUnsigned && m.started == None && PcTrusted(m.shared, m.pc)
            && (m.shared.offer.Some? ==> Trusted(m.shared, m.shared.offer.value))
  {
  }

  /** What a step that stores no offer leaves and starts. */
  predicate KeepsTrust(g: Shared, m: Move) {
    && m.shared.allowUnsigned == g.allowUnsigned && m.shared.offer == g.offer && PcTrusted(m.shared, m.pc)
    && (m.started.Some? ==> PcTrusted(m.shared, m.started.value))
  }

  lemma PressKeepsTrust(g: Shared, pc: Pc, spawned: bool)
    requires ButtonPc(pc)
    ensures KeepsTrust(g, PressedCheck(g, pc, spawned))
  {
  }

  lemma StartKeepsTrust(g: Shared, i: nat, n: nat, pc: Pc, spawned: bool)
    requires BeforeDownload(pc)
    ensures KeepsTrust(g, StartInstall(g, i, n, pc, spawned))
  {
  }

  lemma EndKeepsTrust(g: Shared, pc: Pc, outcome: Outcome)
    requires InInstall(pc) && !BeforeDownload(pc)
    ensures KeepsTrust(g, EndInstall(g, pc, outcome))
  {
  }

  lemma InstallKeepsTrust(g: Shared, i: nat, n: nat, pc: Pc, c: Choice)
    requires !BeforeAsking(pc) && !AfterAsking(pc)
    ensures KeepsTrust(g, Step(g, i, n, pc, c))
  {
    if pc.Done? {
    } else if ButtonPc(pc) {
      PressKeepsTrust(g, pc, c.spawned);
    } else if BeforeDownload(pc) {
      StartKeepsTrust(g, i, n, pc, c.spawned);
    } else {
      EndKeepsTrust(g, pc, c.outcome);
    }
  }

  lemma NextKeepsTrust(s: State, a: Action)
    requires AllTrusted(s)
    ensures AllTrusted(Next(s, a)) && Next(s, a).shared.allowUnsigned == s.shared.allowUnsigned
  {
    if a.Run? && a.thread < |s.threads| && !s.shared.exited {
      var g, pc := s.shared, s.threads[a.thread];
      if BeforeAsking(pc) || AfterAsking(pc) {
        CheckKeepsTrust(g, a.thread, pc, a.choice);
      } else {
        InstallKeepsTrust(g, a.thread, |s.threads|, pc, a.choice);
      }
      MovedTrust(s, a.thread, Step(g, a.thread, |s.threads|, pc, a.choice));
    }
  }

  lemma MovedTrust(s: State, i: nat, m: Move)
    requires AllTrusted(s) && i < |s.threads| && m.shared.allowUnsigned == s.shared.allowUnsigned
    requires PcTrusted(m.shared, m.pc) && (m.started.Some? ==> PcTrusted(m.shared, m.started.value))
    requires m.shared.offer.Some? ==> Trusted(m.shared, m.shared.offer.value)
    ensures AllTrusted(State(m.shared, s.threads[i := m.pc] + if m.started.Some? then [m.started.value] else []))
  {
    forall j | 0 <= j < |s.threads| ensures PcTrusted(m.shared, s.threads[j]) {
      assert PcTrusted(s.shared, s.threads[j]);
    }
  }

  /** In every interleaving: what is offered, stored or downloaded is signed, unless this
      build allows unsigned releases. */
  lemma {:induction false} OnlyTrusted(s: State, actions: seq<Action>)
    requires AllTrusted(s)
    ensures AllTrusted(Behaviour(s, actions)) && Behaviour(s, actions).shared.allowUnsigned == s.shared.allowUnsigned
  {
    if actions != [] {
      OnlyTrusted(s, actions[..|actions| - 1]);
      NextKeepsTrust(Behaviour(s, actions[..|actions| - 1]), actions[|actions| - 1]);
    }
  }

  lemma TrustedPasses(g: Shared, i: nat, n: nat, u: Update, c: Choice)
    requires Trusted(g, u)
    ensures Step(g, i, n, Verify(u), c).pc == Download(u)
  {
  }

  lemma MovedPc(s: State, i: nat, c: Choice)
    requires i < |s.threads| && !s.shared.exited
    ensures PcOf(Next(s, Run(i, c)), i) == Step(s.shared, i, |s.threads|, s.threads[i], c).pc
  {
  }

  lemma VerifiesTrusted(s: State, i: nat, u: Update)
    requires Inv(s) && AllTrusted(s) && PcOf(s, i) == Verify(u)
    ensures Trusted(s.shared, u) && !s.shared.exited
  {
    assert PcInv(s.shared, i, s.threads[i]);
  }

  /** So the second check of the signature, on the install thread, refuses nothing: every
      release that comes to it goes on to the download. */
  lemma VerifiedGoesOn(s0: State, adopted: Option<int>, actions: seq<Action>, i: nat, u: Update, c: Choice)
    requires Init(s0, adopted) && PcOf(Behaviour(s0, actions), i) == Verify(u)
    ensures PcOf(Behaviour(s0, actions + [Run(i, c)]), i) == Download(u)
    ensures Trusted(Behaviour(s0, actions).shared, u)
  {
    var s := Behaviour(s0, actions);
    BehaviourKeepsInv(s0, actions);
    OnlyTrusted(s0, actions);
    BehaviourSnoc(s0, actions, Run(i, c));
    VerifiesTrusted(s, i, u);
    TrustedPasses(s.shared, i, |s.threads|, u, c);
    MovedPc(s, i, c);
  }
}
