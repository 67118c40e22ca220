/**
 The size-capped log: one file that grows by whole records, and one previous file
 kept across a rotation. Opening, renaming and writing may each fail at any time.

 A handle follows its file: after a rename that is not followed by a successful
 open, records go to the file that is now called the previous one.
 */
module LogFiles {
  import opened Base

  datatype Disk = Disk(previous: Option<seq<byte>>, current: Option<seq<byte>>)

  datatype Name = Current | Previous

  datatype Handle = Handle(file: Name, len: nat, maxBytes: nat)

  /** `open` is absent while the file sink could not be set up. */
  datatype Sink = Sink(disk: Disk, open: Option<Handle>)

  /** Which calls of the file system succeed. */
  datatype Luck = Luck(dir: bool, stat: bool, renames: bool, opens: bool, sized: bool)

  /** `cut`: a failed write leaves this many bytes of its record behind. */
  datatype Event =
    | Start(maxBytes: nat, luck: Luck)
    | Record(enabled: bool, line: seq<byte>, luck: Luck, cut: Option<nat>)

  function Content(file: Option<seq<byte>>): seq<byte> {
    match file
    case None => []
    case Some(bytes) => bytes
  }

  /** What is behind the handle. */
  function Behind(d: Disk, file: Name): seq<byte> {
    if file == Current then Content(d.current) else Content(d.previous)
  }

  function Bytes(d: Disk): seq<byte> {
    Content(d.previous) + Content(d.current)
  }

  /** The handle's file exists; one that lost its name has no current file beside it. */
  predicate Valid(s: Sink) {
    s.open.Some? ==>
      var h := s.open.value;
      && h.len <= |Behind(s.disk, h.file)|
      && (h.file == Current ==> s.disk.current.Some?)
      && (h.file == Previous ==> s.disk.current.None? && s.disk.previous.Some?)
  }

  /** Before the log is opened: keep a full current file as the previous one. */
  function RotateIfFull(d: Disk, maxBytes: nat, luck: Luck): Disk {
    if d.current.None? || !luck.stat || |d.current.value| == 0 || |d.current.value| < maxBytes || !luck.renames
    then d else Disk(d.current, None)
  }

  function Create(d: Disk): Disk {
    d.(current := Some(Content(d.current)))
  }

  function StartUnder(d: Disk, maxBytes: nat, luck: Luck): Sink {
    if !luck.dir then Sink(d, None)
    else
      var rotated := RotateIfFull(d, maxBytes, luck);
      if !luck.opens then Sink(rotated, None)
      else
        var created := Create(rotated);
        if !luck.sized then Sink(created, None)
        else Sink(created, Some(Handle(Current, |created.current.value|, maxBytes)))
  }

  /** Rename, then reopen. A rename of a name that is gone fails too. */
  function RotateOpen(s: Sink, luck: Luck): Sink
    requires s.open.Some?
  {
    if s.disk.current.None? || !luck.renames then s
    else
      var renamed := Disk(s.disk.current, None);
      if luck.opens then Sink(Create(renamed), Some(s.open.value.(file := Current, len := 0)))
      else Sink(renamed, Some(s.open.value.(file := Previous)))
  }

  function AppendTo(d: Disk, file: Name, bytes: seq<byte>): Disk {
    if file == Current then d.(current := Some(Content(d.current) + bytes))
    else d.(previous := Some(Content(d.previous) + bytes))
  }

  /** The bytes of a record that reach the disk. */
  function Reached(line: seq<byte>, cut: Option<nat>): seq<byte> {
    if cut.Some? && cut.value < |line| then line[..cut.value] else line
  }

  predicate NeedsRotation(s: Sink, line: seq<byte>)
    requires s.open.Some?
  {
    s.open.value.len > 0 && s.open.value.len + |line| > s.open.value.maxBytes
  }

  function WriteRecord(s: Sink, enabled: bool, line: seq<byte>, luck: Luck, cut: Option<nat>): Sink {
    if s.open.None? || !enabled then s
    else
      var rotated := if NeedsRotation(s, line) then RotateOpen(s, luck) else s;
      var h := rotated.open.value;
      Sink(AppendTo(rotated.disk, h.file, Reached(line, cut)),
           Some(if cut.Some? then h else h.(len := h.len + |line|)))
  }

  function Step(s: Sink, e: Event): Sink {
    match e
    case Start(maxBytes, luck) => StartUnder(s.disk, maxBytes, luck)
    case Record(enabled, line, luck, cut) => WriteRecord(s, enabled, line, luck, cut)
  }

  function Run(s: Sink, events: seq<Event>): Sink {
    if events == [] then s else Step(Run(s, events[..|events| - 1]), events[|events| - 1])
  }

  lemma StepKeepsValid(s: Sink, e: Event)
    requires Valid(s)
    ensures Valid(Step(s, e))
  {
  }

  lemma {:induction false} RunKeepsValid(s: Sink, events: seq<Event>)
    requires Valid(s)
    ensures Valid(Run(s, events))
  {
    if events != [] {
      RunKeepsValid(s, events[..|events| - 1]);
      StepKeepsValid(Run(s, events[..|events| - 1]), events[|events| - 1]);
    }
  }

  // ---- What the two files hold ----

  /** What one event puts on the disk. */
  function Written(s: Sink, e: Event): seq<seq<byte>> {
    if e.Record? && s.open.Some? && e.enabled then [Reached(e.line, e.cut)] else []
  }

  /** Everything that was ever on the disk: the two files found at the start, then
      every record written, oldest first. */
  function History(s: Sink, events: seq<Event>): (h: seq<seq<byte>>)
    ensures |h| >= 2
  {
    if events == [] then [Content(s.disk.previous), Content(s.disk.current)]
    else
      var before := events[..|events| - 1];
      History(s, before) + Written(Run(s, before), events[|events| - 1])
  }

  /** The previous file is the records from `from` on, the current file those from
      `mid` on: nothing between them is missing and no record is cut in two. */
  predicate Holds(d: Disk, history: seq<seq<byte>>, from: nat, mid: nat) {
    && from <= mid <= |history|
    && Content(d.previous) == Concat(history[from..mid])
    && Content(d.current) == Concat(history[mid..])
  }

  lemma HoldsSnoc(d: Disk, history: seq<seq<byte>>, from: nat, mid: nat, file: Name, piece: seq<byte>)
    returns (mid': nat)
    requires Holds(d, history, from, mid)
    requires file == Previous ==> d.current.None?
    ensures Holds(AppendTo(d, file, piece), history + [piece], from, mid')
  {
    var longer := history + [piece];
    if file == Current {
      mid' := mid;
      assert longer[from..mid] == history[from..mid];
      assert longer[mid..] == history[mid..] + [piece];
      ConcatSnoc(history[mid..], piece);
    } else {
      mid' := |longer|;
      assert history[from..] == history[from..mid] + history[mid..];
      ConcatAppend(history[from..mid], history[mid..]);
      assert longer[from..mid'] == history[from..] + [piece];
      ConcatSnoc(history[from..], piece);
    }
  }

  /** A rotation forgets the previous file, as a whole. */
  lemma HoldsRotated(d: Disk, history: seq<seq<byte>>, from: nat, mid: nat)
    requires Holds(d, history, from, mid)
    ensures Holds(Disk(d.current, None), history, mid, |history|)
  {
    assert history[mid..|history|] == history[mid..];
  }

  lemma StepHolds(s: Sink, e: Event, history: seq<seq<byte>>, from: nat, mid: nat) returns (from': nat, mid': nat)
    requires Valid(s) && Holds(s.disk, history, from, mid)
    ensures Holds(Step(s, e).disk, history + Written(s, e), from', mid')
  {
    HoldsRotated(s.disk, history, from, mid);
    if e.Start? {
      assert history + Written(s, e) == history;
      if RotateIfFull(s.disk, e.maxBytes, e.luck) == s.disk || !e.luck.dir {
        from', mid' := from, mid;
      } else {
        from', mid' := mid, |history|;
      }
    } else if Written(s, e) == [] {
      assert history + Written(s, e) == history;
      from', mid' := from, mid;
    } else {
      var rotated := if NeedsRotation(s, e.line) then RotateOpen(s, e.luck) else s;
      if rotated == s {
        from', mid' := from, mid;
      } else {
        from', mid' := mid, |history|;
      }
      mid' := HoldsSnoc(rotated.disk, history, from', mid', rotated.open.value.file, Reached(e.line, e.cut));
    }
  }

  /** Over every run of starts and records, whatever fails, the two files are a
      contiguous tail of the history, cut at record boundaries. */
  lemma {:induction false} FilesHoldTheTail(s: Sink, events: seq<Event>) returns (from: nat, mid: nat)
    requires Valid(s)
    ensures Holds(Run(s, events).disk, History(s, events), from, mid)
  {
    if events == [] {
      from, mid := 0, 1;
      var h := History(s, events);
      assert h[0..1] == [] + [h[0]] && h[1..] == [] + [h[1]];
      ConcatSnoc([], h[0]);
      ConcatSnoc([], h[1]);
    } else {
      var before := events[..|events| - 1];
      RunKeepsValid(s, before);
      from, mid := FilesHoldTheTail(s, before);
      from, mid := StepHolds(Run(s, before), events[|events| - 1], History(s, before), from, mid);
    }
  }

  predicate IsSuffix(a: seq<byte>, b: seq<byte>) {
    |a| <= |b| && a == b[|b| - |a|..]
  }

  lemma HoldsSuffix(d: Disk, history: seq<seq<byte>>, from: nat, mid: nat)
    requires Holds(d, history, from, mid)
    ensures IsSuffix(Bytes(d), Concat(history))
  {
    assert history[from..] == history[from..mid] + history[mid..];
    ConcatAppend(history[from..mid], history[mid..]);
    assert history == history[..from] + history[from..];
    ConcatAppend(history[..from], history[from..]);
  }

  /** As bytes: the previous file followed by the current one is a suffix of
      everything that was ever on the disk. */
  lemma FilesAreASuffix(s: Sink, events: seq<Event>)
    requires Valid(s)
    ensures IsSuffix(Bytes(Run(s, events).disk), Concat(History(s, events)))
  {
    var from, mid := FilesHoldTheTail(s, events);
    HoldsSuffix(Run(s, events).disk, History(s, events), from, mid);
  }

  // ---- The length the logger keeps ----

  function Size(s: Sink): nat
    requires s.open.Some?
  {
    |Behind(s.disk, s.open.value.file)|
  }

  /** The event leaves the logger with a file whose size it has just learnt. */
  predicate Renews(s: Sink, e: Event) {
    if e.Start? then Step(s, e).open.Some?
    else s.open.Some? && e.enabled && NeedsRotation(s, e.line) && s.disk.current.Some? && e.luck.renames && e.luck.opens
  }

  /** The event fails to write a record and leaves part of it behind. */
  predicate Spoils(s: Sink, e: Event) {
    e.Record? && s.open.Some? && e.enabled && e.cut.Some? && Reached(e.line, e.cut) != []
  }

  /** Some failed write left bytes the logger never learnt of. */
  predicate Spoilt(s: Sink, events: seq<Event>) {
    events != [] &&
    var before := events[..|events| - 1];
    var e := events[|events| - 1];
    Spoils(Run(s, before), e) || (Spoilt(s, before) && !Renews(Run(s, before), e))
  }

  lemma StepLen(s: Sink, e: Event)
    requires Valid(s) && Step(s, e).open.Some?
    ensures s.open.Some? || Renews(s, e)
    ensures Step(s, e).open.value.len == Size(Step(s, e)) <==>
            !Spoils(s, e) && (Renews(s, e) || s.open.value.len == Size(s))
  {
  }

  /** The length kept is the size of the file behind the handle exactly when no
      write since the last start or rotation failed halfway; then it is short. */
  lemma {:induction false} LenIsTheSize(s: Sink, events: seq<Event>)
    requires Valid(s) && (s.open.Some? ==> s.open.value.len == Size(s))
    requires Run(s, events).open.Some?
    ensures var after := Run(s, events);
            after.open.value.len <= Size(after) && (after.open.value.len == Size(after) <==> !Spoilt(s, events))
  {
    RunKeepsValid(s, events);
    if events != [] {
      var before := events[..|events| - 1];
      RunKeepsValid(s, before);
      StepLen(Run(s, before), events[|events| - 1]);
      if Run(s, before).open.Some? {
        LenIsTheSize(s, before);
      }
    }
  }

  // ---- The cap ----

  /** Nothing the event needs for the cap fails: a full file is kept as the previous
      one before the log is opened, a needed rotation gives a new file, no write
      stops halfway. What is not needed may fail. */
  predicate Roomy(s: Sink, e: Event) {
    match e
    case Start(maxBytes, luck) =>
      Content(s.disk.current) != [] && |Content(s.disk.current)| >= maxBytes ==> luck.stat && luck.renames
    case Record(enabled, line, luck, cut) =>
      s.open.Some? && enabled ==> cut.None? && (NeedsRotation(s, line) ==> luck.renames && luck.opens)
  }

  predicate AllRoomy(s: Sink, events: seq<Event>) {
    events == [] ||
    (AllRoomy(s, events[..|events| - 1]) && Roomy(Run(s, events[..|events| - 1]), events[|events| - 1]))
  }

  /** The file written is within the cap, or is this one record. */
  predicate Within(s: Sink, line: seq<byte>)
    requires s.open.Some?
  {
    var file := Behind(s.disk, s.open.value.file);
    |file| <= s.open.value.maxBytes || file == line
  }

  /** The current file is within the cap, or is one record that is larger. */
  predicate Capped(s: Sink, events: seq<Event>) {
    s.open.Some? ==>
      && s.open.value.file == Current && s.open.value.len == Size(s) && s.disk.current.Some?
      && (|s.disk.current.value| <= s.open.value.maxBytes
          || exists e :: e in events && e.Record? && e.line == s.disk.current.value)
  }

  /** The cap over runs: it holds as long as what it needs does not fail. */
  lemma {:induction false} CapHolds(disk: Disk, events: seq<Event>)
    requires AllRoomy(Sink(disk, None), events)
    ensures Capped(Run(Sink(disk, None), events), events)
  {
    if events != [] {
      var before, e := events[..|events| - 1], events[|events| - 1];
      CapHolds(disk, before);
      CapStep(Run(Sink(disk, None), before), before, e);
      assert before + [e] == events;
    }
  }

  lemma CapStep(s: Sink, before: seq<Event>, e: Event)
    requires Capped(s, before) && Roomy(s, e)
    ensures Capped(Step(s, e), before + [e])
  {
    var events := before + [e];
    assert e in events && forall x :: x in before ==> x in events;
    if e.Record? && s.open.Some? && e.enabled {
      if s.open.value.len == 0 || NeedsRotation(s, e.line) {
        assert Step(s, e).disk.current == Some(e.line) by {
          assert [] + e.line == e.line;
        }
      }
    }
  }

  /** And only so long: a whole record written to a file of known length leaves it
      within the cap, or alone in it, if and only if the rotation it needed, if
      any, gave a new file. */
  lemma CapStepIff(s: Sink, line: seq<byte>, luck: Luck)
    requires Valid(s) && s.open.Some? && s.open.value.file == Current && s.open.value.len == Size(s)
    ensures Within(WriteRecord(s, true, line, luck, None), line) <==> (NeedsRotation(s, line) ==> luck.renames && luck.opens)
  {
    var old' := Behind(s.disk, Current);
    assert old' == [] ==> old' + line == line;
    assert old' != [] ==> |old' + line| > |line|;
    assert [] + line == line;
  }

  /** The handle's file has no name of its own any more. */
  predicate Nameless(s: Sink) {
    s.open.Some? && s.open.value.file == Previous && s.disk.current.None?
  }

  lemma NamelessStep(s: Sink, e: Event)
    requires Nameless(s) && e.Record?
    ensures Nameless(Step(s, e))
    ensures Content(Step(s, e).disk.previous) == Content(s.disk.previous) + Concat(Written(s, e))
  {
    if Written(s, e) != [] {
      ConcatSnoc([], Written(s, e)[0]);
    }
  }

  lemma ConcatTail(a: seq<seq<byte>>, b: seq<seq<byte>>)
    requires |a| >= 2
    ensures Concat((a + b)[2..]) == Concat(a[2..]) + Concat(b)
  {
    assert (a + b)[2..] == a[2..] + b;
    ConcatAppend(a[2..], b);
  }

  lemma TailGrows(start: seq<byte>, before: seq<byte>, after: seq<byte>, history: seq<seq<byte>>, more: seq<seq<byte>>)
    requires |history| >= 2 && before == start + Concat(history[2..]) && after == before + Concat(more)
    ensures after == start + Concat((history + more)[2..])
  {
    ConcatTail(history, more);
    assert (start + Concat(history[2..])) + Concat(more) == start + (Concat(history[2..]) + Concat(more));
  }

  /** When the open after a rename fails, the log never gets a current file again
      before the next start: nothing is rotated any more, and every record goes to
      the previous file, past every cap. */
  lemma {:induction false} NamelessForGood(s: Sink, events: seq<Event>)
    requires Nameless(s) && forall e :: e in events ==> e.Record?
    ensures Nameless(Run(s, events))
    ensures Content(Run(s, events).disk.previous) == Content(s.disk.previous) + Concat(History(s, events)[2..])
  {
    if events == [] {
      assert History(s, events)[2..] == [];
    } else {
      var before, e := events[..|events| - 1], events[|events| - 1];
      assert e in events;
      NamelessForGood(s, before);
      NamelessStep(Run(s, before), e);
      TailGrows(Content(s.disk.previous), Content(Run(s, before).disk.previous), Content(Run(s, events).disk.previous),
                History(s, before), Written(Run(s, before), e));
    }
  }

  /** The record needs a rotation, whose rename succeeds and whose open fails. */
  predicate Orphans(s: Sink, e: Event) {
    && e.Record? && s.open.Some? && e.enabled && NeedsRotation(s, e.line) && s.disk.current.Some?
    && e.luck.renames && !e.luck.opens
  }

  /** Some record since the last start did so. */
  predicate Orphaned(s: Sink, events: seq<Event>) {
    events != [] &&
    var before := events[..|events| - 1];
    var e := events[|events| - 1];
    e.Record? && (Orphans(Run(s, before), e) || Orphaned(s, before))
  }

  /** Which runs get there: exactly those in which, since the last start, a needed
      rotation was renamed and not reopened. */
  lemma {:induction false} NamelessIff(s: Sink, events: seq<Event>)
    requires Valid(s) && !Nameless(s)
    ensures Nameless(Run(s, events)) <==> Orphaned(s, events)
  {
    if events != [] {
      var before := events[..|events| - 1];
      NamelessIff(s, before);
      RunKeepsValid(s, before);
      NamelessStepIff(Run(s, before), events[|events| - 1]);
    }
  }

  lemma NamelessStepIff(s: Sink, e: Event)
    requires Valid(s)
    ensures Nameless(Step(s, e)) <==> e.Record? && (Orphans(s, e) || Nameless(s))
  {
  }

  // ---- What is kept, by sizes ----

  /** A start finds a log that has reached the cap, and can move it. */
  predicate MovesLog(d: Disk, maxBytes: nat, luck: Luck) {
    && luck.dir && luck.stat && luck.renames
    && d.current.Some? && d.current.value != [] && |d.current.value| >= maxBytes
  }

  /** A start keeps both files as they are, the current one made when it is missing; only
      a log that has reached the cap becomes the previous one, in place of what was there. */
  lemma StartKeeps(s: Sink, maxBytes: nat, luck: Luck)
    ensures var r := Step(s, Start(maxBytes, luck));
            && (if MovesLog(s.disk, maxBytes, luck) then r.disk.previous == s.disk.current && Content(r.disk.current) == []
                else r.disk.previous == s.disk.previous && Content(r.disk.current) == Content(s.disk.current))
            && (r.disk.current.Some? <==> (luck.dir && luck.opens) || (s.disk.current.Some? && !MovesLog(s.disk, maxBytes, luck)))
            && (if luck.dir && luck.opens && luck.sized
                then r.open == Some(Handle(Current, |Content(r.disk.current)|, maxBytes)) else r.open == None)
  {
  }

  /** So the previous file changes at a start if and only if such a log was there and was
      not the previous file's very bytes. */
  lemma PreviousChangesIff(s: Sink, maxBytes: nat, luck: Luck)
    ensures Step(s, Start(maxBytes, luck)).disk.previous != s.disk.previous <==>
            MovesLog(s.disk, maxBytes, luck) && s.disk.previous != s.disk.current
  {
  }

  /** The record is the first of its file, or fits beside what is there. */
  predicate Fits(s: Sink, line: seq<byte>)
    requires s.open.Some?
  {
    s.open.value.len == 0 || s.open.value.len + |line| <= s.open.value.maxBytes
  }

  /** The first bytes of a record, all of them unless the write is cut. */
  predicate Part(piece: seq<byte>, line: seq<byte>, cut: Option<nat>) {
    if cut.Some? && cut.value < |line| then |piece| == cut.value && piece == line[..cut.value] else piece == line
  }

  /** A record that fits is added behind its handle's file, and no other byte changes. */
  lemma FittingIsAdded(s: Sink, line: seq<byte>, luck: Luck, cut: Option<nat>) returns (piece: seq<byte>)
    requires Valid(s) && s.open.Some? && Fits(s, line)
    ensures Part(piece, line, cut)
    ensures var h, r := s.open.value, Step(s, Record(true, line, luck, cut));
            && (if h.file == Current then r.disk == Disk(s.disk.previous, Some(Content(s.disk.current) + piece))
                else r.disk == Disk(Some(Content(s.disk.previous) + piece), None))
            && r.open == Some(h.(len := if cut.Some? then h.len else h.len + |line|))
  {
    piece := if cut.Some? && cut.value < |line| then line[..cut.value] else line;
  }

  /** One that does not fit moves the log out of its way when it can: the old log becomes
      the previous file, and the record is alone in a new one; without a new one it
      follows the old log. Otherwise it is added all the same. */
  lemma FullIsMoved(s: Sink, line: seq<byte>, luck: Luck, cut: Option<nat>) returns (piece: seq<byte>)
    requires Valid(s) && s.open.Some? && !Fits(s, line)
    ensures Part(piece, line, cut)
    ensures var h, r := s.open.value, Step(s, Record(true, line, luck, cut));
            var length := if cut.Some? then 0 else |line|;
            if s.disk.current.None? then
              r.disk == Disk(Some(Content(s.disk.previous) + piece), None) && r.open == Some(h.(len := h.len + length))
            else if !luck.renames then
              && r.disk == s.disk.(current := Some(s.disk.current.value + piece))
              && r.open == Some(h.(len := h.len + length))
            else if luck.opens then
              && r.disk == Disk(s.disk.current, Some(piece))
              && r.open == Some(h.(file := Current, len := length))
            else
              && r.disk == Disk(Some(s.disk.current.value + piece), None)
              && r.open == Some(h.(file := Previous, len := h.len + length))
  {
    piece := if cut.Some? && cut.value < |line| then line[..cut.value] else line;
    assert [] + piece == piece;
  }

  /** A record that is not asked for, or has no log to go to, changes nothing. */
  lemma UnwantedIsIgnored(s: Sink, enabled: bool, line: seq<byte>, luck: Luck, cut: Option<nat>)
    requires s.open.None? || !enabled
    ensures Step(s, Record(enabled, line, luck, cut)) == s
  {
  }

  /** No start finds a log that has reached the cap, and each record fits. */
  predicate Small(s: Sink, events: seq<Event>) {
    events == [] ||
    var before, e := Run(s, events[..|events| - 1]), events[|events| - 1];
    && Small(s, events[..|events| - 1])
    && if e.Start? then |Content(before.disk.current)| < e.maxBytes || Content(before.disk.current) == []
       else before.open.Some? && e.enabled ==> Fits(before, e.line)
  }

  /** Over such a run no byte of either file is ever lost: the previous file is the one
      that was there, and the current one has grown by all that was written. */
  lemma {:induction false} SmallLosesNothing(disk: Disk, events: seq<Event>)
    requires Small(Sink(disk, None), events)
    ensures var r := Run(Sink(disk, None), events);
            && r.disk.previous == disk.previous && (r.open.Some? ==> r.open.value.file == Current && r.disk.current.Some?)
            && Content(r.disk.current) == Concat(History(Sink(disk, None), events)[1..])
  {
    var s := Sink(disk, None);
    if events == [] {
      ConcatSnoc([], Content(disk.current));
      assert History(s, events)[1..] == [] + [Content(disk.current)];
    } else {
      var before, e := events[..|events| - 1], events[|events| - 1];
      SmallLosesNothing(disk, before);
      RunKeepsValid(s, before);
      var mid, h := Run(s, before), History(s, before);
      assert (h + Written(mid, e))[1..] == h[1..] + Written(mid, e);
      if e.Start? {
        StartKeeps(mid, e.maxBytes, e.luck);
        assert h[1..] + [] == h[1..];
      } else if Written(mid, e) == [] {
        assert h[1..] + [] == h[1..];
      } else {
        var piece := FittingIsAdded(mid, e.line, e.luck, e.cut);
        ConcatSnoc(h[1..], Reached(e.line, e.cut));
      }
    }
  }

  // ---- The logger in place ----

  class FileLogger {
    var disk: Disk
    var open: Option<Handle>

    constructor (found: Disk)
      ensures Value() == Sink(found, None)
    {
      disk, open := found, None;
    }

    function Value(): Sink
      reads this
    {
      Sink(disk, open)
    }

    method Under(maxBytes: nat, luck: Luck)
      modifies this
      ensures Value() == StartUnder(old(disk), maxBytes, luck)
    {
      open := None;
      if !luck.dir {
        return;
      }
      if luck.stat && disk.current.Some? {
        var size := |disk.current.value|;
        if !(size == 0 || size < maxBytes) && luck.renames {
          disk := Disk(disk.current, None);
        }
      }
      if !luck.opens {
        return;
      }
      disk := Create(disk);
      if luck.sized {
        open := Some(Handle(Current, |disk.current.value|, maxBytes));
      }
    }

    method RotateOpenFile(luck: Luck)
      requires open.Some?
      modifies this
      ensures open.Some? && Value() == RotateOpen(old(Value()), luck)
    {
      if disk.current.None? || !luck.renames {
        return;
      }
      disk := Disk(disk.current, None);
      open := Some(open.value.(file := Previous));
      if luck.opens {
        disk := Create(disk);
        open := Some(open.value.(file := Current, len := 0));
      }
    }

    method Write(enabled: bool, line: seq<byte>, luck: Luck, cut: Option<nat>)
      requires Valid(Value())
      modifies this
      ensures Value() == WriteRecord(old(Value()), enabled, line, luck, cut) && Valid(Value())
    {
      if open.None? || !enabled {
        return;
      }
      StepKeepsValid(Value(), Record(enabled, line, luck, cut));
      if open.value.len > 0 && open.value.len + |line| > open.value.maxBytes {
        RotateOpenFile(luck);
      }
      disk := AppendTo(disk, open.value.file, Reached(line, cut));
      if cut.Some? {
        return;
      }
      open := Some(open.value.(len := open.value.len + |line|));
    }
  }
}
