/**
 The update state the Settings page draws: the phases of a check and an install
 and what each answer does to them. `Model` and the functions on it are the
 meaning; `UpdateViewModel` is the object the service keeps behind its mutex.
 */
module UpdateModel {
  import opened Base

  datatype Phase = Idle | Checking | Available | Downloading | Ready | Error

  predicate AllowsCheck(phase: Phase) {
    phase in {Idle, Available, Ready, Error}
  }

  /** The release the client described. */
  datatype Update = Update(version: string, epoch: nat, channel: string, url: string, sha256: string,
                           size: nat, rollback: bool, currentYanked: bool, verified: bool)

  /** The release as the page shows it. */
  datatype Summary = Summary(version: string, epoch: nat, channel: string, size: nat, rollback: bool,
                             currentYanked: bool, fileName: string)

  /** What follows the last slash; everything when there is none. */
  function LastSegment(url: string): string {
    if url == [] || url[|url| - 1] == '/' then []
    else LastSegment(url[..|url| - 1]) + [url[|url| - 1]]
  }

  lemma {:induction false} LastSegmentIs(url: string)
    ensures var file := LastSegment(url);
            && '/' !in file
            && |file| <= |url| && url[|url| - |file|..] == file
            && (|file| < |url| ==> url[|url| - |file| - 1] == '/')
  {
    if url != [] && url[|url| - 1] != '/' {
      LastSegmentIs(url[..|url| - 1]);
    }
  }

  function FromUpdate(u: Update): Summary {
    Summary(u.version, u.epoch, u.channel, u.size, u.rollback, u.currentYanked, LastSegment(u.url))
  }

  /** The line under the heading, by what it says. */
  datatype Status =
    | NotChecked
    | NowChecking
    | Offers(channel: string, version: string)
    | UpToDate
    | NowDownloading(release: Summary)
    | Installed(version: string)
    | Failed

  datatype View = View(phase: Phase, status: Status, available: Option<Summary>, readyVersion: Option<string>,
                       error: Option<string>, replacement: Option<string>)

  /** `lastCheckAt` is in nanoseconds. */
  datatype Model = Model(view: View, lastCheckAt: Option<int>)

  const NEW_VIEW := View(Idle, NotChecked, None, None, None, None)

  const CHECK_INTERVAL: int := 6 * 60 * 60
  const SECOND: int := 1_000_000_000

  /** Whole seconds of a signed duration, towards zero. */
  function NumSeconds(nanos: int): int {
    if nanos >= 0 then nanos / SECOND else -((-nanos) / SECOND)
  }

  function CheckDue(m: Model, now: int): (due: bool)
    ensures due <==> m.lastCheckAt.None? || now - m.lastCheckAt.value >= CHECK_INTERVAL * SECOND
  {
    match m.lastCheckAt
    case None => true
    case Some(last) => NumSeconds(now - last) >= CHECK_INTERVAL
  }

  function BeginCheck(m: Model): (Model, bool) {
    if AllowsCheck(m.view.phase)
    then (m.(view := m.view.(phase := Checking, status := NowChecking, error := None)), true)
    else (m, false)
  }

  function Fail(m: Model, reason: string): Model {
    m.(view := m.view.(phase := Error, status := Failed, error := Some(reason)))
  }

  function CheckFinished(m: Model, at: int, offer: Result<Option<Summary>, string>): (Model, bool) {
    if m.view.phase != Checking then (m, false)
    else
      var timed := m.(lastCheckAt := Some(at));
      (match offer
       case Ok(Some(s)) =>
         timed.(view := m.view.(replacement := if s.currentYanked then Some(s.version) else None,
                                status := Offers(s.channel, s.version), available := Some(s),
                                phase := Available))
       case Ok(None) =>
         timed.(view := m.view.(available := None, replacement := None, phase := Idle, status := UpToDate))
       case Err(reason) => Fail(timed, reason),
       true)
  }

  function BeginDownload(m: Model): (Model, bool) {
    if m.view.phase != Available || m.view.available.None? then (m, false)
    else (m.(view := m.view.(phase := Downloading, error := None,
                             status := NowDownloading(m.view.available.value))), true)
  }

  function DownloadFinished(m: Model, version: string): (Model, bool) {
    if m.view.phase != Downloading then (m, false)
    else (m.(view := m.view.(phase := Ready, readyVersion := Some(version), status := Installed(version))), true)
  }

  function Reset(m: Model): Model {
    if m.view.phase in {Checking, Downloading} then m
    else m.(view := m.view.(phase := Idle, status := NotChecked, available := None, readyVersion := None,
                            error := None))
  }

  /** The status line says something true about the phase, and an offer, a ready
      version or an error is shown where its phase promises one. */
  predicate Truthful(v: View) {
    match v.phase
    case Idle => v.status in {NotChecked, UpToDate} && v.available == None
    case Checking => v.status == NowChecking && v.error == None
    case Available => v.available.Some? && v.status == Offers(v.available.value.channel, v.available.value.version)
    case Downloading => v.available.Some? && v.status == NowDownloading(v.available.value)
    case Ready => v.readyVersion.Some? && v.status == Installed(v.readyVersion.value)
    case Error => v.error.Some? && v.status == Failed
  }

  /** Every transition keeps the page truthful, and a refused one changes nothing. */
  lemma TransitionsStayTruthful(m: Model, at: int, offer: Result<Option<Summary>, string>, text: string)
    requires Truthful(m.view)
    ensures Truthful(BeginCheck(m).0.view) && Truthful(CheckFinished(m, at, offer).0.view)
    ensures Truthful(BeginDownload(m).0.view) && Truthful(DownloadFinished(m, text).0.view)
    ensures Truthful(Fail(m, text).view) && Truthful(Reset(m).view)
    ensures !BeginCheck(m).1 ==> BeginCheck(m).0 == m
    ensures !CheckFinished(m, at, offer).1 ==> CheckFinished(m, at, offer).0 == m
    ensures !BeginDownload(m).1 ==> BeginDownload(m).0 == m
    ensures !DownloadFinished(m, text).1 ==> DownloadFinished(m, text).0 == m
    ensures BeginDownload(m).1 <==> m.view.phase == Available
  {
  }

  /** The object behind the service's mutex. Every method returns whether the
      transition was allowed. */
  class UpdateViewModel {
    var view: View
    var lastCheckAt: Option<int>

    constructor (adopted: Option<int>)
      ensures Value() == Model(NEW_VIEW, adopted)
    {
      view := NEW_VIEW;
      lastCheckAt := adopted;
    }

    function Value(): Model
      reads this
    {
      Model(view, lastCheckAt)
    }

    method DoBeginCheck() returns (allowed: bool)
      modifies this
      ensures (Value(), allowed) == BeginCheck(old(Value()))
    {
      if !AllowsCheck(view.phase) {
        return false;
      }
      view := view.(phase := Checking);
      view := view.(status := NowChecking);
      view := view.(error := None);
      return true;
    }

    method DoCheckFinished(at: int, offer: Result<Option<Summary>, string>) returns (allowed: bool)
      modifies this
      ensures (Value(), allowed) == CheckFinished(old(Value()), at, offer)
    {
      if view.phase != Checking {
        return false;
      }
      lastCheckAt := Some(at);
      match offer {
        case Ok(Some(s)) =>
          view := view.(replacement := if s.currentYanked then Some(s.version) else None);
          view := view.(status := Offers(s.channel, s.version));
          view := view.(available := Some(s));
          view := view.(phase := Available);
        case Ok(None) =>
          view := view.(available := None);
          view := view.(replacement := None);
          view := view.(phase := Idle);
          view := view.(status := UpToDate);
        case Err(reason) =>
          DoFail(reason);
      }
      return true;
    }

    method DoBeginDownload() returns (allowed: bool)
      modifies this
      ensures (Value(), allowed) == BeginDownload(old(Value()))
    {
      if view.phase != Available || view.available.None? {
        return false;
      }
      view := view.(phase := Downloading);
      view := view.(error := None);
      view := view.(status := NowDownloading(view.available.value));
      return true;
    }

    method DoDownloadFinished(version: string) returns (allowed: bool)
      modifies this
      ensures (Value(), allowed) == DownloadFinished(old(Value()), version)
    {
      if view.phase != Downloading {
        return false;
      }
      view := view.(phase := Ready);
      view := view.(readyVersion := Some(version));
      view := view.(status := Installed(version));
      return true;
    }

    method DoFail(reason: string)
      modifies this
      ensures Value() == Fail(old(Value()), reason)
    {
      view := view.(phase := Error);
      view := view.(status := Failed);
      view := view.(error := Some(reason));
    }

    method DoReset()
      modifies this
      ensures Value() == Reset(old(Value()))
    {
      if view.phase == Checking || view.phase == Downloading {
        return;
      }
      view := view.(phase := Idle);
      view := view.(status := NotChecked);
      view := view.(available := None);
      view := view.(readyVersion := None);
      view := view.(error := None);
    }
  }
}
