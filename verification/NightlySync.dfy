/**
  The opt-in nightly sync (server/bridge/munim_bridge.py: maybe_tally_sync, cmd_tally_sync,
  load_config and save_config; server/bridge/tally_sender.py: due_now).

  Times are seconds of local time at a fixed offset. A running helper works on the copy of
  the config it loaded when it started; the command line changes the file only.
*/
module NightlySync {
  import opened Basics

  const RUN_AFTER_HOUR := 2

  function Day(t: int): int {
    t / 86400
  }

  function Hour(t: int): int {
    t % 86400 / 3600
  }

  /** A time is within its hour of its day. */
  lemma Calendar(t: int)
    ensures 0 <= Hour(t) < 24 && Day(t) * 86400 + Hour(t) * 3600 <= t < Day(t) * 86400 + (Hour(t) + 1) * 3600
  {
    assert t == Day(t) * 86400 + t % 86400;
  }

  /** `paired` is whether the config holds a pairing; without one a helper does not start. */
  datatype Config = Config(paired: bool, enabled: bool, last: Option<int>)

  /** A poll that stamped the config; `sent` unless the helper died between saving and the attempt. */
  datatype Entry = Entry(checked: int, stamped: int, sent: bool)

  /**
    `file` is None when no saved config can be read; `toggler` is what the command line has
    read and not yet written.
  */
  datatype World = World(file: Option<Config>, helper: Option<Config>, toggler: Option<Config>, log: seq<Entry>)

  datatype Fate = Lives | DiesBeforeSave | DiesInSave | DiesAfterSave

  datatype Event =
    | Start
    | Stop
    | Poll(now: int, stamp: int, fate: Fate)
    | ToggleLoads
    | ToggleSaves(enable: bool)
    | Pair
    | Unpair

  predicate DueNow(last: Option<int>, now: int) {
    Hour(now) >= RUN_AFTER_HOUR && (last.None? || Day(last.value) < Day(now))
  }

  /** One poll of the running helper. Saving is not atomic: a death in it leaves no readable file. */
  function Polled(w: World, now: int, stamp: int, fate: Fate): World {
    if w.helper.None? then w
    else
      var cfg := w.helper.value;
      if !cfg.enabled || !DueNow(cfg.last, now) then
        if fate.Lives? then w else w.(helper := None)
      else
        var stamped := cfg.(last := Some(stamp));
        match fate
        case Lives =>
          w.(file := Some(stamped), helper := Some(stamped), log := w.log + [Entry(now, stamp, true)])
        case DiesBeforeSave => w.(helper := None)
        case DiesInSave => w.(file := None, helper := None, log := w.log + [Entry(now, stamp, false)])
        case DiesAfterSave => w.(file := Some(stamped), helper := None, log := w.log + [Entry(now, stamp, false)])
  }

  /** A config that cannot be read counts as an empty one. */
  function Loaded(file: Option<Config>): Config {
    match file
    case Some(config) => config
    case None => Config(false, false, None)
  }

  function Next(w: World, e: Event): World {
    match e
    case Start => w.(helper := if w.file.Some? && w.file.value.paired then w.file else None)
    case Stop => w.(helper := None)
    case Poll(now, stamp, fate) => Polled(w, now, stamp, fate)
    case ToggleLoads => w.(toggler := Some(Loaded(w.file)))
    case ToggleSaves(enable) =>
      if w.toggler.None? then w
      else w.(file := Some(w.toggler.value.(enabled := enable)), toggler := None)
    case Pair => w.(file := Some(Config(true, false, None)))
    case Unpair => w.(file := None)
  }

  function After(w: World, events: seq<Event>): World {
    if events == [] then w else Next(After(w, events[..|events| - 1]), events[|events| - 1])
  }

  /** A config on disk and nothing running. */
  function Begin(config: Config): World {
    World(Some(config), None, None, [])
  }

  // ---------------------------------------------------------------- at most one attempt a date

  /** Some stamp is of the date or a later one: the one the config came with, or one in the log. */
  predicate StampedFrom(first: Option<int>, log: seq<Entry>, d: int) {
    (first.Some? && Day(first.value) >= d) || exists x <- log :: Day(x.stamped) >= d
  }

  /** Every entry was checked at two o'clock or later, on a later date than all stamps before it. */
  predicate Ordered(first: Option<int>, log: seq<Entry>) {
    forall i :: 0 <= i < |log| ==>
      Hour(log[i].checked) >= RUN_AFTER_HOUR && !StampedFrom(first, log[..i], Day(log[i].checked))
  }

  /** A config that carries a stamp of the date or a later one. */
  predicate Knows(config: Config, d: int) {
    config.last.Some? && Day(config.last.value) >= d
  }

  /** If the date polled already has a stamp, the polling helper's config carries it. */
  predicate Informed(first: Option<int>, w: World, e: Event) {
    && e.Poll? && !e.fate.DiesBeforeSave? && Hour(e.now) >= RUN_AFTER_HOUR && w.helper.Some? && w.helper.value.enabled
    && StampedFrom(first, w.log, Day(e.now))
    ==> Knows(w.helper.value, Day(e.now))
  }

  predicate AllInformed(first: Option<int>, w: World, events: seq<Event>) {
    forall i :: 0 <= i < |events| ==> Informed(first, After(w, events[..i]), events[i])
  }

  lemma OrderedSnoc(first: Option<int>, log: seq<Entry>, e: Entry)
    ensures Ordered(first, log + [e])
            <==> Ordered(first, log) && Hour(e.checked) >= RUN_AFTER_HOUR && !StampedFrom(first, log, Day(e.checked))
  {
    hide StampedFrom, Day, Hour;
    var more := log + [e];
    assert more[..|log|] == log;
    assert forall i :: 0 <= i < |log| ==> more[..i] == log[..i] && more[i] == log[i];
  }

  /** One step keeps the order exactly when a polling helper knows of a stamp of its date. */
  lemma StepKeepsOrder(first: Option<int>, w: World, e: Event)
    requires Ordered(first, w.log)
    ensures Ordered(first, Next(w, e).log) <==> Informed(first, w, e)
  {
    hide Ordered, StampedFrom, Day, Hour;
    if e.Poll? {
      OrderedSnoc(first, w.log, Entry(e.now, e.stamp, true));
      OrderedSnoc(first, w.log, Entry(e.now, e.stamp, false));
    }
  }

  lemma StepKeepsDisorder(first: Option<int>, w: World, e: Event)
    requires !Ordered(first, w.log)
    ensures !Ordered(first, Next(w, e).log)
  {
    hide Ordered, StampedFrom, Day, Hour;
    if e.Poll? {
      OrderedSnoc(first, w.log, Entry(e.now, e.stamp, true));
      OrderedSnoc(first, w.log, Entry(e.now, e.stamp, false));
    }
  }

  lemma AllInformedSnoc(first: Option<int>, w: World, events: seq<Event>)
    requires events != []
    ensures var n := |events| - 1;
            AllInformed(first, w, events)
            <==> AllInformed(first, w, events[..n]) && Informed(first, After(w, events[..n]), events[n])
  {
    var n := |events| - 1;
    hide Informed, After;
    assert forall i :: 0 <= i < n ==> events[..n][..i] == events[..i] && events[..n][i] == events[i];
  }

  /**
    However the helper is started, stopped, killed, toggled, paired and unpaired, with any
    clock: every attempt begins at two o'clock or later, on a later date than all stamps
    before it, if and only if no enabled helper polls a stamped date with a config that does
    not carry such a stamp.
  */
  lemma {:induction false} AtMostOnceExactly(config: Config, events: seq<Event>)
    ensures Ordered(config.last, After(Begin(config), events).log)
            <==> AllInformed(config.last, Begin(config), events)
    decreases |events|
  {
    if events == [] {
      assert After(Begin(config), events) == Begin(config);
    } else {
      var n := |events| - 1;
      var w := After(Begin(config), events[..n]);
      AtMostOnceExactly(config, events[..n]);
      AllInformedSnoc(config.last, Begin(config), events);
      hide Ordered, AllInformed, Informed, Next;
      if Ordered(config.last, w.log) {
        StepKeepsOrder(config.last, w, events[n]);
      } else {
        StepKeepsDisorder(config.last, w, events[n]);
      }
    }
  }

  /** The two clock reads of a poll come in order. */
  predicate ReadsInOrder(events: seq<Event>) {
    forall e <- events :: e.Poll? ==> e.now <= e.stamp
  }

  lemma {:induction false} EntriesInOrder(w: World, events: seq<Event>)
    requires ReadsInOrder(events) && w.log == []
    ensures forall x <- After(w, events).log :: x.checked <= x.stamped
    decreases |events|
  {
    if events != [] {
      EntriesInOrder(w, events[..|events| - 1]);
    }
  }

  lemma DaysFollow(s: int, t: int)
    requires s <= t
    ensures Day(s) <= Day(t)
  {
  }

  lemma LaterEntriesAreLaterDays(first: Option<int>, log: seq<Entry>, i: nat, j: nat)
    requires Ordered(first, log) && i < j < |log|
    ensures Day(log[i].stamped) < Day(log[j].checked)
  {
    hide Day, Hour;
    assert log[i] == log[..j][i];
    assert log[i] in log[..j];
  }

  /** At most one attempt begins on a local date, none before two o'clock, none on a date that has a stamp. */
  lemma AtMostOncePerDate(config: Config, events: seq<Event>, i: nat, j: nat)
    requires AllInformed(config.last, Begin(config), events) && ReadsInOrder(events)
    requires i < j < |After(Begin(config), events).log|
    ensures var log := After(Begin(config), events).log;
            && Hour(log[i].checked) >= 2 && Hour(log[j].checked) >= 2
            && Day(log[i].checked) <= Day(log[i].stamped) < Day(log[j].checked)
  {
    var log := After(Begin(config), events).log;
    AtMostOnceExactly(config, events);
    EntriesInOrder(Begin(config), events);
    hide After, Begin, AllInformed, Day, Hour;
    LaterEntriesAreLaterDays(config.last, log, i, j);
    DaysFollow(log[i].checked, log[i].stamped);
  }

  // ---------------------------------------------------------------- what keeps a helper informed

  /** The newest stamp anyone ever made. */
  function Newest(first: Option<int>, log: seq<Entry>): Option<int> {
    if log == [] then first else Some(log[|log| - 1].stamped)
  }

  /** Whoever holds a config that can come into force holds the newest stamp. */
  predicate Current(first: Option<int>, w: World) {
    && (w.file.Some? && w.file.value.paired ==> w.file.value.last == Newest(first, w.log))
    && (w.helper.Some? ==> w.helper.value.paired && w.helper.value.last == Newest(first, w.log))
  }

  /** The file is not overwritten by a config that can come into force and misses a stamp. */
  predicate Careful(first: Option<int>, w: World, e: Event) {
    match e
    case ToggleSaves(_) =>
      w.toggler.Some? && w.toggler.value.paired ==> w.toggler.value.last == Newest(first, w.log)
    case Pair => Newest(first, w.log) == None
    case _ => true
  }

  predicate AllCareful(first: Option<int>, w: World, events: seq<Event>) {
    forall i :: 0 <= i < |events| ==> Careful(first, After(w, events[..i]), events[i])
  }

  lemma NewestSnoc(first: Option<int>, log: seq<Entry>, e: Entry)
    ensures Newest(first, log + [e]) == Some(e.stamped)
  {
  }

  /** One step keeps every holder current exactly when it does not put a stale copy on disk. */
  lemma StepStaysCurrent(first: Option<int>, w: World, e: Event)
    requires Current(first, w)
    ensures Current(first, Next(w, e)) <==> Careful(first, w, e)
  {
    hide Newest, Day, Hour;
    if e.Poll? {
      NewestSnoc(first, w.log, Entry(e.now, e.stamp, true));
      NewestSnoc(first, w.log, Entry(e.now, e.stamp, false));
    }
  }

  lemma AllCarefulPrefix(first: Option<int>, w: World, events: seq<Event>)
    requires events != [] && AllCareful(first, w, events)
    ensures var n := |events| - 1;
            AllCareful(first, w, events[..n]) && Careful(first, After(w, events[..n]), events[n])
  {
    var n := |events| - 1;
    hide Careful, After;
    assert forall i :: 0 <= i < n ==> events[..n][..i] == events[..i] && events[..n][i] == events[i];
  }

  /** The newest stamp is of the latest date stamped. */
  lemma NewestIsLatest(first: Option<int>, log: seq<Entry>, d: int)
    requires Ordered(first, log) && StampedFrom(first, log, d) && forall x <- log :: x.checked <= x.stamped
    ensures Newest(first, log).Some? && Day(Newest(first, log).value) >= d
  {
    hide Day, Hour;
    if log != [] {
      var n := |log| - 1;
      DaysFollow(log[n].checked, log[n].stamped);
      forall x | x in log
        ensures Day(x.stamped) <= Day(log[n].stamped)
      {
        var i :| 0 <= i < |log| && log[i] == x;
        if i < n {
          LaterEntriesAreLaterDays(first, log, i, n);
        }
      }
      assert first.Some? ==> Day(first.value) < Day(log[n].checked);
    }
  }

  /** A run whose writes are careful keeps every helper current and informed. */
  lemma {:induction false} CarefulIsInformed(config: Config, events: seq<Event>)
    requires AllCareful(config.last, Begin(config), events) && ReadsInOrder(events)
    ensures AllInformed(config.last, Begin(config), events)
    ensures Current(config.last, After(Begin(config), events))
    decreases |events|
  {
    if events != [] {
      var n := |events| - 1;
      var w := After(Begin(config), events[..n]);
      AllCarefulPrefix(config.last, Begin(config), events);
      assert forall e <- events[..n] :: e in events;
      CarefulIsInformed(config, events[..n]);
      AllInformedSnoc(config.last, Begin(config), events);
      StepStaysCurrent(config.last, w, events[n]);
      AtMostOnceExactly(config, events[..n]);
      EntriesInOrder(Begin(config), events[..n]);
      hide Ordered, AllInformed, AllCareful, After, StampedFrom, Newest, Day, Hour, Careful;
      CurrentIsInformed(config.last, w, events[n]);
    }
  }

  lemma CurrentIsInformed(first: Option<int>, w: World, e: Event)
    requires Current(first, w) && Ordered(first, w.log) && forall x <- w.log :: x.checked <= x.stamped
    ensures Informed(first, w, e)
  {
    hide Ordered, StampedFrom, Newest, Day, Hour;
    if e.Poll? && StampedFrom(first, w.log, Day(e.now)) {
      NewestIsLatest(first, w.log, Day(e.now));
    }
  }

  // ---------------------------------------------------------------- every polled date is served

  predicate Serves(x: Entry, d: int) {
    Day(x.checked) == d || Day(x.stamped) == d
  }

  /** A stamp stands for the date: an entry of the log, or the one the config came with. */
  predicate Served(first: Option<int>, log: seq<Entry>, d: int) {
    (first.Some? && Day(first.value) == d) || exists x <- log :: Serves(x, d)
  }

  /** A poll that runs to its end, with the sync enabled, at two o'clock or later. */
  predicate Counts(w: World, e: Event) {
    e.Poll? && e.fate.Lives? && w.helper.Some? && w.helper.value.enabled && Hour(e.now) >= RUN_AFTER_HOUR
  }

  /** No stamp made before the poll is later than its clock. */
  predicate NoLaterStamp(first: Option<int>, log: seq<Entry>, now: int) {
    (first.Some? ==> first.value <= now) && forall x <- log :: x.stamped <= now
  }

  /** A stamp that really was made, or none. */
  predicate Made(first: Option<int>, log: seq<Entry>, last: Option<int>) {
    last.Some? ==> last == first || exists x <- log :: x.stamped == last.value
  }

  /** Every config anybody holds carries a stamp that really was made, or none. */
  predicate Genuine(first: Option<int>, w: World) {
    && (w.file.Some? ==> Made(first, w.log, w.file.value.last))
    && (w.helper.Some? ==> Made(first, w.log, w.helper.value.last))
    && (w.toggler.Some? ==> Made(first, w.log, w.toggler.value.last))
  }

  lemma MadeStays(first: Option<int>, log: seq<Entry>, e: Entry, last: Option<int>)
    ensures Made(first, log, last) ==> Made(first, log + [e], last)
    ensures Made(first, log + [e], Some(e.stamped))
  {
    assert e in log + [e];
    if Made(first, log, last) && last.Some? && last != first {
      var x :| x in log && x.stamped == last.value;
      assert x in log + [e];
    }
  }

  lemma StepStaysGenuine(first: Option<int>, w: World, e: Event)
    requires Genuine(first, w)
    ensures Genuine(first, Next(w, e))
  {
    if e.Poll? && w.helper.Some? {
      var file := if w.file.Some? then w.file.value.last else None;
      var toggler := if w.toggler.Some? then w.toggler.value.last else None;
      MadeStays(first, w.log, Entry(e.now, e.stamp, true), file);
      MadeStays(first, w.log, Entry(e.now, e.stamp, false), file);
      MadeStays(first, w.log, Entry(e.now, e.stamp, true), toggler);
      MadeStays(first, w.log, Entry(e.now, e.stamp, false), toggler);
    }
    hide Day, Hour;
  }

  lemma {:induction false} RunStaysGenuine(config: Config, events: seq<Event>)
    ensures Genuine(config.last, After(Begin(config), events))
    decreases |events|
  {
    if events != [] {
      var n := |events| - 1;
      RunStaysGenuine(config, events[..n]);
      hide Genuine, Next;
      StepStaysGenuine(config.last, After(Begin(config), events[..n]), events[n]);
    }
  }

  lemma PollServes(first: Option<int>, w: World, e: Event)
    requires Genuine(first, w) && Counts(w, e) && NoLaterStamp(first, w.log, e.now)
    ensures Served(first, Next(w, e).log, Day(e.now))
  {
    var last := w.helper.value.last;
    if DueNow(last, e.now) {
      assert Serves(Entry(e.now, e.stamp, true), Day(e.now));
      assert Entry(e.now, e.stamp, true) in Next(w, e).log;
    } else if last != first {
      var x :| x in w.log && x.stamped == last.value;
      DaysFollow(x.stamped, e.now);
      assert Serves(x, Day(e.now));
    } else {
      DaysFollow(last.value, e.now);
    }
  }

  lemma LogGrows(w: World, e: Event)
    ensures w.log <= Next(w, e).log
  {
  }

  lemma ServedStays(first: Option<int>, log: seq<Entry>, more: seq<Entry>, d: int)
    requires Served(first, log, d) && log <= more
    ensures Served(first, more, d)
  {
    if x :| x in log && Serves(x, d) {
      assert x in more;
    }
  }

  /**
    Each date on which an enabled helper polls at two o'clock or later has its stamp in the
    end, whatever is toggled, paired or lost on the way, if the clock of that poll is past
    the stamps made before it.
  */
  lemma {:induction false} EveryPolledDateServed(config: Config, events: seq<Event>, k: nat)
    requires k < |events| && Counts(After(Begin(config), events[..k]), events[k])
    requires NoLaterStamp(config.last, After(Begin(config), events[..k]).log, events[k].now)
    ensures Served(config.last, After(Begin(config), events).log, Day(events[k].now))
    decreases |events|
  {
    var n := |events| - 1;
    var w := After(Begin(config), events[..n]);
    hide Served, Day, Hour, Next, Counts, NoLaterStamp, Genuine;
    if k == n {
      RunStaysGenuine(config, events[..n]);
      PollServes(config.last, w, events[n]);
    } else {
      assert events[..n][k] == events[k] && events[..n][..k] == events[..k];
      EveryPolledDateServed(config, events[..n], k);
      LogGrows(w, events[n]);
      ServedStays(config.last, w.log, After(Begin(config), events).log, Day(events[k].now));
    }
  }

  /** No date is served twice. */
  lemma OnlyOneServes(config: Config, events: seq<Event>, i: nat, j: nat, d: int)
    requires AllInformed(config.last, Begin(config), events) && ReadsInOrder(events)
    requires var log := After(Begin(config), events).log;
             i < j < |log| && Serves(log[i], d)
    ensures !Serves(After(Begin(config), events).log[j], d)
  {
    var log := After(Begin(config), events).log;
    AtMostOncePerDate(config, events, i, j);
    EntriesInOrder(Begin(config), events);
    hide Day, Hour, After;
    DaysFollow(log[j].checked, log[j].stamped);
  }

  /** The sync is tried on the date: by a poll of that date that lives past saving its stamp. */
  predicate AttemptedOn(log: seq<Entry>, d: int) {
    exists x <- log :: Day(x.checked) == d && x.sent
  }

  /**
    A date with a stamp has an attempt of its own exactly when the stamp does not come from
    an earlier date, that is, from the config or from a poll that read its second clock
    after midnight, nor from a helper that died between saving the stamp and trying.
  */
  lemma OwnAttemptExactly(config: Config, events: seq<Event>, d: int)
    requires AllInformed(config.last, Begin(config), events) && ReadsInOrder(events)
    requires Served(config.last, After(Begin(config), events).log, d)
    ensures var log := After(Begin(config), events).log;
            AttemptedOn(log, d)
            <==> && !(config.last.Some? && Day(config.last.value) == d)
                 && !(exists x <- log :: Day(x.checked) < d && Day(x.stamped) == d)
                 && !(exists x <- log :: Day(x.checked) == d && !x.sent)
  {
    var log := After(Begin(config), events).log;
    AtMostOnceExactly(config, events);
    EntriesInOrder(Begin(config), events);
    forall i | 0 <= i < |log|
      ensures Day(log[i].checked) <= Day(log[i].stamped)
      ensures config.last.Some? ==> Day(config.last.value) < Day(log[i].checked)
    {
      DaysFollow(log[i].checked, log[i].stamped);
      assert !StampedFrom(config.last, log[..i], Day(log[i].checked));
    }
    forall i, j | 0 <= i < |log| && 0 <= j < |log| && i != j && Serves(log[i], d)
      ensures !Serves(log[j], d)
    {
      if i < j {
        OnlyOneServes(config, events, i, j, d);
      } else if Serves(log[j], d) {
        OnlyOneServes(config, events, j, i, d);
      }
    }
    hide Day, Hour, After, AllInformed, Ordered;
  }

  // ---------------------------------------------------------------- where the promise breaks

  lemma AfterSnoc(w: World, events: seq<Event>, e: Event)
    ensures After(w, events + [e]) == Next(After(w, events), e)
  {
    assert (events + [e])[..|events|] == events;
  }

  /** A poll that straddles midnight leaves the new date without an attempt of its own. */
  lemma MidnightTakesTheNextDate()
    ensures var w := After(Begin(Config(true, true, None)),
                           [Start, Poll(86399, 86400, Lives), Poll(93600, 93600, Lives)]);
            w.log == [Entry(86399, 86400, true)] && Day(93600) == 1 && Day(86399) == 0
  {
    var w := Begin(Config(true, true, None));
    AfterSnoc(w, [], Start);
    AfterSnoc(w, [Start], Poll(86399, 86400, Lives));
    AfterSnoc(w, [Start, Poll(86399, 86400, Lives)], Poll(93600, 93600, Lives));
    assert [Start, Poll(86399, 86400, Lives)] + [Poll(93600, 93600, Lives)]
        == [Start, Poll(86399, 86400, Lives), Poll(93600, 93600, Lives)];
  }

  /** A helper that dies between saving the stamp and trying to sync: nothing is tried on that date. */
  lemma DeathTakesTheDate()
    ensures var w := After(Begin(Config(true, true, None)),
                           [Start, Poll(7200, 7200, DiesAfterSave), Start, Poll(7300, 7300, Lives)]);
            w.log == [Entry(7200, 7200, false)] && Day(7300) == Day(7200) && Hour(7300) >= RUN_AFTER_HOUR
            && w.helper.Some? && w.helper.value.enabled && !AttemptedOn(w.log, Day(7300))
  {
    var w := Begin(Config(true, true, None));
    var run := [Start, Poll(7200, 7200, DiesAfterSave), Start, Poll(7300, 7300, Lives)];
    var unstamped, stamped := Some(Config(true, true, None)), Some(Config(true, true, Some(7200)));
    var once := [Entry(7200, 7200, false)];
    assert After(w, run[..0]) == w;
    hide After;
    PrefixSteps(w, run, 0, World(unstamped, None, None, []));
    PrefixSteps(w, run, 1, World(unstamped, unstamped, None, []));
    PrefixSteps(w, run, 2, World(stamped, None, None, once));
    PrefixSteps(w, run, 3, World(stamped, stamped, None, once));
    assert run[..4] == run;
  }

  /** A toggle that read the file before the attempt and wrote it after: two attempts on one date. */
  lemma RacingToggleRepeats()
    ensures var w := After(Begin(Config(true, true, None)),
                           [ToggleLoads, Start, Poll(7200, 7200, Lives), ToggleSaves(true), Start,
                            Poll(7300, 7300, Lives)]);
            w.log == [Entry(7200, 7200, true), Entry(7300, 7300, true)] && Day(7200) == Day(7300)
  {
    var unstamped, stamped := Some(Config(true, true, None)), Some(Config(true, true, Some(7200)));
    var once := [Entry(7200, 7200, true)];
    var w := Begin(Config(true, true, None));
    var run := [ToggleLoads, Start, Poll(7200, 7200, Lives), ToggleSaves(true), Start, Poll(7300, 7300, Lives)];
    assert After(w, run[..0]) == w;
    hide After;
    PrefixSteps(w, run, 0, World(unstamped, None, None, []));
    PrefixSteps(w, run, 1, World(unstamped, None, unstamped, []));
    PrefixSteps(w, run, 2, World(unstamped, unstamped, unstamped, []));
    PrefixSteps(w, run, 3, World(stamped, stamped, unstamped, once));
    PrefixSteps(w, run, 4, World(unstamped, stamped, None, once));
    PrefixSteps(w, run, 5, World(unstamped, unstamped, None, once));
    assert run[..6] == run;
  }

  /** Pairing again forgets the stamp: once enabled anew the sync runs a second time that date. */
  lemma PairingAgainRepeats()
    ensures var w := After(Begin(Config(true, true, None)),
                           [Start, Poll(7200, 7200, Lives), Pair, ToggleLoads, ToggleSaves(true), Start,
                            Poll(7300, 7300, Lives)]);
            w.log == [Entry(7200, 7200, true), Entry(7300, 7300, true)] && Day(7200) == Day(7300)
  {
    var unstamped, stamped := Some(Config(true, true, None)), Some(Config(true, true, Some(7200)));
    var off := Some(Config(true, false, None));
    var once := [Entry(7200, 7200, true)];
    var w := Begin(Config(true, true, None));
    var run := [Start, Poll(7200, 7200, Lives), Pair, ToggleLoads, ToggleSaves(true), Start, Poll(7300, 7300, Lives)];
    assert After(w, run[..0]) == w;
    hide After;
    PrefixSteps(w, run, 0, World(unstamped, None, None, []));
    PrefixSteps(w, run, 1, World(unstamped, unstamped, None, []));
    PrefixSteps(w, run, 2, World(stamped, stamped, None, once));
    PrefixSteps(w, run, 3, World(off, stamped, None, once));
    PrefixSteps(w, run, 4, World(off, stamped, off, once));
    PrefixSteps(w, run, 5, World(unstamped, stamped, None, once));
    PrefixSteps(w, run, 6, World(unstamped, unstamped, None, once));
    assert run[..7] == run;
  }

  lemma PrefixSteps(w: World, run: seq<Event>, i: nat, here: World)
    requires i < |run| && After(w, run[..i]) == here
    ensures After(w, run[..i + 1]) == Next(here, run[i])
  {
    assert run[..i + 1][..i] == run[..i];
  }

  /** A stopped helper tries nothing until it is started again. */
  lemma {:induction false} StoppedIsQuiet(w: World, events: seq<Event>)
    requires Event.Start !in events
    ensures var after := After(Next(w, Event.Stop), events);
            after.log == w.log && after.helper.None?
    decreases |events|
  {
    if events != [] {
      var n := |events| - 1;
      assert events[n] in events && forall e <- events[..n] :: e in events;
      StoppedIsQuiet(w, events[..n]);
    }
  }

  /**
    Switching the sync off does not reach a running helper: the file stays switched off
    exactly until the helper's next due poll, which syncs and switches it on again.
  */
  lemma {:induction false} DisableLastsUntilTheNextAttempt(w: World, polls: seq<Event>)
    requires w.helper.Some? && w.helper.value.enabled && w.file.Some? && !w.file.value.enabled
    requires forall e <- polls :: e.Poll? && e.fate.Lives?
    ensures var after := After(w, polls);
            && after.helper.Some? && after.helper.value.enabled && after.file.Some? && w.log <= after.log
            && (after.file.value.enabled <==> after.log != w.log)
    decreases |polls|
  {
    if polls != [] {
      var n := |polls| - 1;
      assert polls[n] in polls && forall e <- polls[..n] :: e in polls;
      DisableLastsUntilTheNextAttempt(w, polls[..n]);
    }
  }

  /** Nor does unpairing: the helper's next attempt writes the pairing back. */
  lemma {:induction false} UnpairLastsUntilTheNextAttempt(w: World, polls: seq<Event>)
    requires w.helper.Some? && w.helper.value.paired && w.file.None?
    requires forall e <- polls :: e.Poll? && e.fate.Lives?
    ensures var after := After(w, polls);
            && after.helper.Some? && after.helper.value.paired && w.log <= after.log
            && (after.log == w.log ==> after.file.None?)
            && (after.log != w.log ==> after.file == after.helper)
    decreases |polls|
  {
    if polls != [] {
      var n := |polls| - 1;
      assert polls[n] in polls && forall e <- polls[..n] :: e in polls;
      UnpairLastsUntilTheNextAttempt(w, polls[..n]);
    }
  }

  // ---------------------------------------------------------------- the helper

  class Helper {
    var file: Option<Config>
    var memory: Option<Config>
    var toggler: Option<Config>
    ghost var log: seq<Entry>

    ghost function State(): World
      reads this
    {
      World(file, memory, toggler, log)
    }

    constructor (config: Config)
      ensures State() == Begin(config)
    {
      file, memory, toggler, log := Some(config), None, None, [];
    }

    method Start()
      modifies this
      ensures State() == Next(old(State()), Event.Start)
      ensures memory == (if file.Some? && file.value.paired then file else None) && file == old(file)
    {
      memory := if file.Some? && file.value.paired then file else None;
    }

    /** One turn of the polling loop; `attempt` tells whether the sync is now tried. */
    method MaybeTallySync(now: int, stamp: int, fate: Fate) returns (attempt: bool)
      modifies this
      ensures State() == Next(old(State()), Poll(now, stamp, fate))
      ensures attempt <==> |log| > |old(log)| && log[|log| - 1].sent
      ensures attempt <==>
                && fate.Lives? && Hour(now) >= 2
                && match old(memory)
                   case None => false
                   case Some(Config(_, enabled, None)) => enabled
                   case Some(Config(_, enabled, Some(last))) => enabled && Day(last) < Day(now)
      ensures attempt ==>
                && memory == Some(Config(old(memory).value.paired, true, Some(stamp))) && file == memory
                && log == old(log) + [Entry(now, stamp, true)]
      ensures !attempt && fate.Lives? ==> memory == old(memory) && file == old(file) && log == old(log)
    {
      attempt := false;
      if memory.None? {
        return;
      }
      var cfg := memory.value;
      if cfg.enabled && DueNow(cfg.last, now) {
        cfg := cfg.(last := Some(stamp));
        memory := Some(cfg);
        if fate.DiesBeforeSave? {
          memory := None;
          return;
        }
        file := if fate.DiesInSave? then None else Some(cfg);
        attempt := fate.Lives?;
        log := log + [Entry(now, stamp, attempt)];
      }
      if !fate.Lives? {
        memory := None;
      }
    }

    /** The command line reads the file, changes the switch and writes the file. */
    method Toggle(enable: bool)
      modifies this
      ensures State() == Next(Next(old(State()), ToggleLoads), ToggleSaves(enable))
      ensures file == Some(match old(file)
                           case Some(Config(paired, _, last)) => Config(paired, enable, last)
                           case None => Config(false, enable, None))
      ensures memory == old(memory) && log == old(log)
    {
      var cfg := if file.Some? then file.value else Config(false, false, None);
      file, toggler := Some(cfg.(enabled := enable)), None;
    }

    method Pair()
      modifies this
      ensures State() == Next(old(State()), Event.Pair)
      ensures file == Some(Config(true, false, None)) && memory == old(memory) && log == old(log)
    {
      file := Some(Config(true, false, None));
    }

    method Unpair()
      modifies this
      ensures State() == Next(old(State()), Event.Unpair)
      ensures file == None && memory == old(memory) && log == old(log)
    {
      file := None;
    }
  }
}
