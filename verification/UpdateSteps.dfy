/**
 What each step of the update service's threads does to the page, the two atomics and
 the offer, and where it leaves its thread.
 */
module UpdateSteps {
  import opened Base
  import opened UpdateModel
  import opened UpdateThreads

  // ---- The page ----

  /** A check may begin over everything but a check and a download. */
  predicate MayCheck(v: View) {
    v.phase != Checking && v.phase != Phase.Downloading
  }

  predicate Marked(v: View, v': View) {
    v' == v.(phase := Checking, status := NowChecking, error := None)
  }

  predicate FailedWith(v: View, v': View, reason: string) {
    v' == v.(phase := Error, status := Failed, error := Some(reason))
  }

  /** Every transition of the page: when it is allowed, what it shows then, and that it
      writes a time only when a check is answered. */
  lemma PageDoes(m: Model, at: int, version: string, reason: string)
    ensures var (m', allowed) := BeginCheck(m);
            && (allowed <==> MayCheck(m.view)) && m'.lastCheckAt == m.lastCheckAt
            && if allowed then Marked(m.view, m'.view) else m' == m
    ensures var (m', allowed) := BeginDownload(m);
            && (allowed <==> m.view.phase == Available && m.view.available.Some?) && m'.lastCheckAt == m.lastCheckAt
            && if allowed
               then m'.view == m.view.(phase := Downloading, error := None, status := NowDownloading(m.view.available.value))
               else m' == m
    ensures var (m', allowed) := DownloadFinished(m, version);
            && (allowed <==> m.view.phase == Downloading) && m'.lastCheckAt == m.lastCheckAt
            && if allowed then m'.view == m.view.(phase := Ready, readyVersion := Some(version), status := Installed(version))
               else m' == m
    ensures FailedWith(m.view, Fail(m, reason).view, reason) && Fail(m, reason).lastCheckAt == m.lastCheckAt
    ensures var m' := Reset(m);
            && m'.lastCheckAt == m.lastCheckAt
            && if !MayCheck(m.view) then m' == m
               else m'.view == NEW_VIEW.(replacement := m.view.replacement)
  {
  }

  /** An answer is taken only while a check is under way: an offer is shown, an up-to-date
      page is idle, a failure says why; each has its time. */
  lemma AnswerDoes(m: Model, at: int, offer: Result<Option<Summary>, string>)
    ensures var (m', allowed) := CheckFinished(m, at, offer);
            && (allowed <==> m.view.phase == Checking) && (!allowed ==> m' == m)
            && (allowed ==>
                  && m'.lastCheckAt == Some(at)
                  && match offer
                     case Ok(Some(s)) =>
                       m'.view == m.view.(phase := Available, status := Offers(s.channel, s.version), available := Some(s),
                                          replacement := if s.currentYanked then Some(s.version) else None)
                     case Ok(None) =>
                       m'.view == m.view.(phase := Idle, status := UpToDate, available := None, replacement := None)
                     case Err(reason) => FailedWith(m.view, m'.view, reason))
  {
  }

  // ---- The threads ----

  /** Only the page changes, and not its time. */
  predicate PageOnly(g: Shared, g': Shared) {
    g' == g.(model := g'.model, past := g'.past) && g'.model.lastCheckAt == g.model.lastCheckAt
  }

  /** Only what the properties read of the past. */
  predicate PastOnly(g: Shared, g': Shared) {
    g' == g.(past := g'.past)
  }

  /** The thread's step: a check is due when none was made or the interval has passed; it
      is not made beside an install, nor over a check. */
  lemma CheckStepDoes(g: Shared, i: nat, n: nat, pc: Pc, c: Choice)
    requires BeforeAsking(pc)
    ensures var m := Step(g, i, n, pc, c);
            var home := if i == 0 then ClockTop else Pc.Done;
            && m.started == None
            && match pc
               case ClockTop =>
                 && m.shared == g
                 && m.pc == if g.model.lastCheckAt.None? || g.now - g.model.lastCheckAt.value >= INTERVAL then LoadInstalling else ClockTop
               case LoadInstalling => m.shared == g && m.pc == if g.installing then home else Mark
               case Mark =>
                 if MayCheck(g.model.view) then m.pc == FlagOn && PageOnly(g, m.shared) && Marked(g.model.view, m.shared.model.view)
                 else m == Move(g, home, None)
               case _ => m == Move(g.(checking := true), Ask, None)
  {
  }

  /** From the answer on; `AnswerIsShown` says what comes of it. */
  lemma FlagOffDoes(g: Shared, i: nat, n: nat, c: Choice)
    ensures Step(g, i, n, FlagOff, c) == Move(g.(checking := false), if i == 0 then ClockTop else Pc.Done, None)
  {
  }

  /** The button marks before it spawns the check that then asks. */
  lemma ButtonStepDoes(g: Shared, i: nat, n: nat, pc: Pc, c: Choice)
    requires ButtonPc(pc)
    ensures var m := Step(g, i, n, pc, c);
            match pc
            case ButtonMark =>
              if MayCheck(g.model.view) then
                && m.pc == ButtonFlagOn && m.started == None && PageOnly(g, m.shared) && Marked(g.model.view, m.shared.model.view)
                && m.shared.past == g.past.(buttonMarked := true)
              else m == Move(g, Pc.Done, None)
            case ButtonFlagOn => m == Move(g.(checking := true), ButtonSpawn, None)
            case _ => m == Move(g, Pc.Done, if c.spawned then Some(LoadInstalling) else None)
  {
  }

  /** An install begins once at a time, over an available release; its thread gets the
      stored offer. Where no thread could be started the atomic is taken back. */
  lemma InstallStepDoes(g: Shared, i: nat, n: nat, pc: Pc, c: Choice)
    requires BeforeDownload(pc)
    ensures var m := Step(g, i, n, pc, c);
            match pc
            case SwapInstalling =>
              && m.started == None && PastOnly(g.(installing := true), m.shared.(installing := true))
              && (if g.installing then m.pc == Pc.Done && m.shared == g else m.pc == BeginInstall && m.shared.installing)
            case BeginInstall =>
              && m.started == None
              && if g.model.view.phase == Available && g.model.view.available.Some? then
                   && m.pc == SpawnInstall(g.offer) && PageOnly(g, m.shared)
                   && m.shared.model.view == g.model.view.(phase := Phase.Downloading, error := None,
                                                           status := NowDownloading(g.model.view.available.value))
                 else m == Move(g, Release, None)
            case SpawnInstall(offer) =>
              if offer.None? then
                m.pc == Pc.Done && m.started == None && FailedWith(g.model.view, m.shared.model.view, "there is no update to install")
                && m.shared.installing == g.installing
              else if c.spawned then m.pc == Pc.Done && m.started == Some(Verify(offer.value)) && PastOnly(g, m.shared)
              else m.pc == Release && m.started == None && PastOnly(g, m.shared) && m.shared.past.unspawned
            case _ => true
  {
  }

  /** The install thread: only a release this build may install is downloaded; a failure
      is shown with its reason, a success with its version, and the atomic is reset last. */
  lemma DownloadStepDoes(g: Shared, i: nat, n: nat, pc: Pc, c: Choice)
    requires InInstall(pc) && !BeforeDownload(pc)
    ensures var m := Step(g, i, n, pc, c);
            && m.started == None
            && match pc
               case Verify(u) =>
                 m.shared == g && m.pc == if u.verified || g.allowUnsigned then Download(u) else Report(u, Stopped("unsigned"))
               case Download(u) => m.shared == g && m.pc == Report(u, c.outcome)
               case Report(u, Stopped(reason)) =>
                 m.pc == Release && PageOnly(g, m.shared) && FailedWith(g.model.view, m.shared.model.view, reason)
               case Report(u, Applied(restart)) =>
                 && m.pc == Release && m.shared == g.(model := m.shared.model, exited := restart)
                 && (g.model.view.phase == Phase.Downloading ==>
                       m.shared.model.view == g.model.view.(phase := Ready, readyVersion := Some(u.version), status := Installed(u.version)))
               case _ => m.pc == Pc.Done && PastOnly(g.(installing := false), m.shared)
  {
  }
}
