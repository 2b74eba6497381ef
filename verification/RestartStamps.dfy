/**
  The restart protocol: a change of the server configuration is stamped on its ConfigMap with the current time, and
  a later step stamps the pod template, which makes the StatefulSet restart, unless the template's stamp is newer.
  Stamps are compared as text.
*/
module RestartStamps {
  import opened Wrappers

  // ---- Text ----

  /** Go's `<` on strings. */
  predicate Less(a: string, b: string)
    decreases |a|
  {
    b != [] && (a == [] || a[0] < b[0] || (a[0] == b[0] && Less(a[1..], b[1..])))
  }

  lemma {:induction false} LessIrreflexive(a: string)
    ensures !Less(a, a)
    decreases |a|
  {
    if a != [] {
      LessIrreflexive(a[1..]);
    }
  }

  lemma {:induction false} LessTotal(a: string, b: string)
    ensures Less(a, b) || a == b || Less(b, a)
    decreases |a|
  {
    if a != [] && b != [] && a[0] == b[0] {
      LessTotal(a[1..], b[1..]);
      assert a == [a[0]] + a[1..] && b == [b[0]] + b[1..];
    }
  }

  lemma {:induction false} LessTrans(a: string, b: string, c: string)
    requires Less(a, b) && Less(b, c)
    ensures Less(a, c)
    decreases |a|
  {
    if a != [] && a[0] == b[0] == c[0] {
      LessTrans(a[1..], b[1..], c[1..]);
    }
  }

  predicate AtMost(a: string, b: string) {
    a == b || Less(a, b)
  }

  lemma AtMostTrans(a: string, b: string, c: string)
    requires AtMost(a, b) && AtMost(b, c)
    ensures AtMost(a, c)
  {
    if a != b && b != c {
      LessTrans(a, b, c);
    }
  }

  lemma AtMostIffNotLess(a: string, b: string)
    ensures AtMost(a, b) <==> !Less(b, a)
  {
    LessTotal(a, b);
    LessIrreflexive(a);
    if Less(a, b) && Less(b, a) {
      LessTrans(a, b, a);
    }
  }

  // ---- Time stamps ----

  /** Civil time at one-second resolution. */
  datatype DateTime = DateTime(year: nat, month: nat, day: nat, hour: nat, minute: nat, second: nat)

  predicate Valid(t: DateTime) {
    t.year < 10000 && t.month < 100 && t.day < 100 && t.hour < 100 && t.minute < 100 && t.second < 100
  }

  type Time = t: DateTime | Valid(t) witness DateTime(1970, 1, 1, 0, 0, 0)

  predicate Before(a: Time, b: Time) {
    || a.year < b.year
    || (a.year == b.year &&
        (|| a.month < b.month
         || (a.month == b.month &&
             (|| a.day < b.day
              || (a.day == b.day &&
                  (|| a.hour < b.hour
                   || (a.hour == b.hour &&
                       (|| a.minute < b.minute
                        || (a.minute == b.minute && a.second < b.second)))))))))
  }

  function Digit(d: nat): char
    requires d < 10
  {
    '0' + d as char
  }

  function Pad2(n: nat): string
    requires n < 100
  {
    [Digit(n / 10), Digit(n % 10)]
  }

  function Pad4(n: nat): string
    requires n < 10000
  {
    Pad2(n / 100) + Pad2(n % 100)
  }

  function Clock(t: Time, zone: string): string {
    Pad2(t.hour) + ([':'] + (Pad2(t.minute) + ([':'] + (Pad2(t.second) + zone))))
  }

  /** `Format(time.RFC3339)` for a four-digit year, no fraction, and the given zone text. */
  function Format(t: Time, zone: string): string {
    Pad4(t.year) + (['-'] + (Pad2(t.month) + (['-'] + (Pad2(t.day) + (['T'] + Clock(t, zone))))))
  }

  function DigitValue(c: char): nat
    requires '0' <= c <= '9'
  {
    (c - '0') as nat
  }

  predicate AreDigits(s: string) {
    forall i :: 0 <= i < |s| ==> '0' <= s[i] <= '9'
  }

  lemma ClockText(t: Time, zone: string)
    ensures var s := Clock(t, zone);
            && |s| == 8 + |zone| && s[8..] == zone && s[2] == ':' && s[5] == ':'
            && s[..2] == Pad2(t.hour) && s[3..5] == Pad2(t.minute) && s[6..8] == Pad2(t.second)
  {
  }

  /** The text is that of RFC 3339: the fields in their places, with as many digits as they have there. */
  lemma FormatText(t: Time, zone: string)
    ensures var s := Format(t, zone);
            && |s| == 19 + |zone| && s[19..] == zone
            && s[4] == '-' && s[7] == '-' && s[10] == 'T' && s[13] == ':' && s[16] == ':'
            && s[..4] == Pad4(t.year) && s[5..7] == Pad2(t.month) && s[8..10] == Pad2(t.day)
            && s[11..13] == Pad2(t.hour) && s[14..16] == Pad2(t.minute) && s[17..19] == Pad2(t.second)
  {
    var s, c := Format(t, zone), Clock(t, zone);
    ClockText(t, zone);
    assert s[11..] == c;
    assert s[11..13] == c[..2] && s[14..16] == c[3..5] && s[17..19] == c[6..8] && s[19..] == c[8..];
  }

  /** Two digits stand for their number. */
  lemma PadValue(n: nat)
    ensures n < 100 ==>
              && |Pad2(n)| == 2 && AreDigits(Pad2(n))
              && 10 * DigitValue(Pad2(n)[0]) + DigitValue(Pad2(n)[1]) == n
    ensures n < 10000 ==>
              && |Pad4(n)| == 4 && AreDigits(Pad4(n))
              && 1000 * DigitValue(Pad4(n)[0]) + 100 * DigitValue(Pad4(n)[1]) + 10 * DigitValue(Pad4(n)[2]) +
                 DigitValue(Pad4(n)[3]) == n
  {
  }

  lemma LessCons(x: char, y: char, a: string, b: string)
    ensures Less([x] + a, [y] + b) <==> x < y || (x == y && Less(a, b))
  {
    assert ([x] + a)[1..] == a && ([y] + b)[1..] == b;
  }

  /** Two-digit fields compare as numbers, and equal fields leave the decision to what follows. */
  lemma Pad2Order(m: nat, n: nat, a: string, b: string)
    requires m < 100 && n < 100
    ensures Less(Pad2(m) + a, Pad2(n) + b) <==> m < n || (m == n && Less(a, b))
  {
  }

  lemma Pad4Order(m: nat, n: nat, a: string, b: string)
    requires m < 10000 && n < 10000
    ensures Less(Pad4(m) + a, Pad4(n) + b) <==> m < n || (m == n && Less(a, b))
  {
    assert Pad4(m) + a == Pad2(m / 100) + (Pad2(m % 100) + a);
    assert Pad4(n) + b == Pad2(n / 100) + (Pad2(n % 100) + b);
    Pad2Order(m / 100, n / 100, Pad2(m % 100) + a, Pad2(n % 100) + b);
    Pad2Order(m % 100, n % 100, a, b);
  }

  lemma ClockOrder(a: Time, b: Time, y: string, z: string)
    ensures Less(Clock(a, y), Clock(b, z)) <==>
              || a.hour < b.hour
              || (a.hour == b.hour &&
                  (|| a.minute < b.minute
                   || (a.minute == b.minute && (a.second < b.second || (a.second == b.second && Less(y, z))))))
  {
    var sa, sb := Pad2(a.second) + y, Pad2(b.second) + z;
    var ma, mb := Pad2(a.minute) + ([':'] + sa), Pad2(b.minute) + ([':'] + sb);
    Pad2Order(a.second, b.second, y, z);
    LessCons(':', ':', sa, sb);
    Pad2Order(a.minute, b.minute, [':'] + sa, [':'] + sb);
    LessCons(':', ':', ma, mb);
    Pad2Order(a.hour, b.hour, [':'] + ma, [':'] + mb);
  }

  /** Formatted stamps compare as text by their local times, and for equal local times by their zone texts. */
  lemma ZonedOrder(a: Time, b: Time, y: string, z: string)
    ensures Less(Format(a, y), Format(b, z)) <==> Before(a, b) || (a == b && Less(y, z))
  {
    var ca, cb := ['T'] + Clock(a, y), ['T'] + Clock(b, z);
    var da, db := Pad2(a.day) + ca, Pad2(b.day) + cb;
    var ma, mb := Pad2(a.month) + (['-'] + da), Pad2(b.month) + (['-'] + db);
    ClockOrder(a, b, y, z);
    LessCons('T', 'T', Clock(a, y), Clock(b, z));
    Pad2Order(a.day, b.day, ca, cb);
    LessCons('-', '-', da, db);
    Pad2Order(a.month, b.month, ['-'] + da, ['-'] + db);
    LessCons('-', '-', ma, mb);
    Pad4Order(a.year, b.year, ['-'] + ma, ['-'] + mb);
  }

  /** With one zone text, comparing formatted stamps as text is comparing the times. */
  lemma FormatOrder(a: Time, b: Time, zone: string)
    ensures Less(Format(a, zone), Format(b, zone)) <==> Before(a, b)
  {
    ZonedOrder(a, b, zone, zone);
    LessIrreflexive(zone);
  }

  /** With one zone text, the text of the clock does not go back as long as the clock does not. */
  lemma LaterText(a: Time, b: Time, zone: string)
    requires !Before(b, a)
    ensures AtMost(Format(a, zone), Format(b, zone))
  {
    FormatOrder(b, a, zone);
    AtMostIffNotLess(Format(a, zone), Format(b, zone));
  }

  /** Seconds since midnight UTC, for an offset in hours east of it. */
  function UtcSeconds(t: Time, offset: int): int {
    (t.hour - offset) * 3600 + t.minute * 60 + t.second
  }

  /** One zone text is needed: when summer time ends, a later stamp can be smaller as text. */
  lemma ZoneChangeBreaksOrder()
    ensures var a, b := DateTime(2024, 10, 27, 2, 59, 59), DateTime(2024, 10, 27, 2, 0, 0);
            && UtcSeconds(a, 2) < UtcSeconds(b, 1)
            && Less(Format(b, "+01:00"), Format(a, "+02:00"))
  {
    ZonedOrder(DateTime(2024, 10, 27, 2, 0, 0), DateTime(2024, 10, 27, 2, 59, 59), "+01:00", "+02:00");
  }

  // ---- The protocol ----

  /** Every value the pod template's stamp has had, in order; None is a template without a stamp. */
  type History = seq<Option<string>>

  /**
    `now` is the text of the clock, `config` the ConfigMap's stamp, and the last entry of `all` the template's current
    one. Entries from `from` on came after the config stamp was set, and those from `mark` on after the StatefulSet was
    last created, too. The last two fields count the restarts, since then, that were not due but decided upon because
    of an old copy.
  */
  datatype State = State(
    now: string, config: Option<string>, all: History, from: nat, mark: nat, needless: nat, needlessHere: nat)

  /**
    The configuration changes, and its stamp is a separate write that may fail. The restart step decides on a copy of
    the template that may be `lag` entries old, and would write at time `at`. The StatefulSet may be deleted, as for
    claim expansion, and built anew.
  */
  datatype Move =
    | Tick(to: string)
    | Configure(stamped: bool)
    | Restart(at: string, landed: bool, lag: nat)
    | Recreate

  function Template(s: State): Option<string>
    requires s.all != []
  {
    s.all[|s.all| - 1]
  }

  function Copy(all: History, lag: nat): Option<string>
    requires all != []
  {
    all[if lag < |all| then |all| - 1 - lag else 0]
  }

  /** The restart step finds something to do, given the two stamps it reads. */
  predicate Asks(config: Option<string>, stamp: Option<string>) {
    config.Some? && !(stamp.Some? && Less(config.value, stamp.value))
  }

  /** A restart is due. */
  predicate RestartDue(s: State)
    requires s.all != []
  {
    Asks(s.config, Template(s))
  }

  /** The template's history after its stamp has been set. */
  function Stamped(all: History, stamp: string): History
    requires all != []
  {
    if all[|all| - 1] == Some(stamp) then all else all + [Some(stamp)]
  }

  function Apply(s: State, m: Move): (s': State)
    requires s.all != []
    ensures s'.all != []
  {
    match m
    case Tick(to) => s.(now := to)
    case Configure(stamped) =>
      if stamped then State(s.now, Some(s.now), s.all, |s.all|, |s.all|, 0, 0) else s
    case Restart(at, landed, lag) =>
      if !landed || !Asks(s.config, Copy(s.all, lag)) then s.(now := at)
      else
        var k := if RestartDue(s) then 0 else 1;
        s.(now := at, all := Stamped(s.all, at),
           needless := s.needless + k, needlessHere := s.needlessHere + k)
    case Recreate => s.(all := s.all + [None], mark := |s.all| + 1, needlessHere := 0)
  }

  /** The text of the clock never goes back. */
  predicate Allowed(s: State, m: Move) {
    match m
    case Tick(to) => AtMost(s.now, to)
    case Restart(at, _, _) => AtMost(s.now, at)
    case _ => true
  }

  /** An old copy of the config stamp only makes the step see less to do. */
  lemma OldConfigAsksLess(older: Option<string>, config: Option<string>, stamp: Option<string>)
    requires older.Some? ==> config.Some? && AtMost(older.value, config.value)
    ensures Asks(older, stamp) ==> Asks(config, stamp)
  {
    if older.Some? && stamp.Some? && Less(config.value, stamp.value) && older != config {
      LessTrans(older.value, config.value, stamp.value);
    }
  }

  // ---- How often the template is stamped ----

  ghost predicate NoneAfter(all: History, stamp: string) {
    forall i :: 0 <= i < |all| && all[i].Some? ==> AtMost(all[i].value, stamp)
  }

  /** How many of the entries are stamps. */
  function Count(entries: History): (n: nat)
    ensures n <= |entries|
  {
    if entries == [] then 0
    else Count(entries[..|entries| - 1]) + if entries[|entries| - 1].Some? then 1 else 0
  }

  /** How many times the StatefulSet was recreated. */
  function Recreations(entries: History): nat {
    |entries| - Count(entries)
  }

  /** Some entry is newer than the config stamp. */
  ghost predicate Passed(entries: History, config: string) {
    exists i :: 0 <= i < |entries| && entries[i].Some? && Less(config, entries[i].value)
  }

  /** The entries end with a stamp. */
  predicate EndsStamped(entries: History) {
    entries != [] && entries[|entries| - 1].Some?
  }

  /** The last stamp is not before the config stamp, and if it is that stamp, none was newer. */
  ghost predicate EndsWell(entries: History, c: string) {
    EndsStamped(entries) ==>
      && AtMost(c, entries[|entries| - 1].value)
      && (entries[|entries| - 1] == Some(c) ==> !Passed(entries, c))
  }

  function One(b: bool): nat {
    if b then 1 else 0
  }

  /** While a template lives it gets one stamp, one more once a newer one than the config stamp, and needless ones. */
  ghost predicate AtMostTwo(newer: History, c: string, needless: nat) {
    EndsWell(newer, c) && |newer| <= needless + One(newer != []) + One(Passed(newer, c))
  }

  /** One stamp for each life of the StatefulSet since the config stamp, one more once newer, and needless ones. */
  ghost predicate OnePerLife(since: History, c: string, needless: nat) {
    && EndsWell(since, c)
    && Count(since) <= Recreations(since) + needless + One(EndsStamped(since)) + One(Passed(since, c))
  }

  /** The invariant, with the text of the current time. */
  ghost predicate InvAt(s: State, now: string) {
    && s.all != [] && s.from <= s.mark <= |s.all|
    && NoneAfter(s.all, now)
    && (s.mark < |s.all| ==> Template(s).Some?)
    && (s.from < s.mark == |s.all| ==> Template(s).None?)
    && match s.config
       case None => Count(s.all[s.from..]) == 0 && s.mark == |s.all|
       case Some(c) =>
         && AtMost(c, now)
         && AtMostTwo(s.all[s.mark..], c, s.needlessHere) && OnePerLife(s.all[s.from..], c, s.needless)
  }

  ghost predicate Inv(s: State) {
    InvAt(s, s.now)
  }

  lemma NoneAfterLater(all: History, s: string, t: string)
    requires NoneAfter(all, s) && AtMost(s, t)
    ensures NoneAfter(all, t)
  {
    forall i | 0 <= i < |all| && all[i].Some?
      ensures AtMost(all[i].value, t)
    {
      AtMostTrans(all[i].value, s, t);
    }
  }

  lemma TimePasses(s: State, now: string, to: string)
    requires InvAt(s, now) && AtMost(now, to)
    ensures InvAt(s, to)
  {
    NoneAfterLater(s.all, now, to);
    if s.config.Some? {
      AtMostTrans(s.config.value, now, to);
    }
  }

  lemma CountAppend(entries: History, e: Option<string>)
    ensures Count(entries + [e]) == Count(entries) + if e.Some? then 1 else 0
  {
    assert (entries + [e])[..|entries|] == entries;
  }

  lemma PassedAppend(entries: History, e: Option<string>, config: string)
    ensures Passed(entries + [e], config) <==> Passed(entries, config) || (e.Some? && Less(config, e.value))
  {
    var more := entries + [e];
    assert more[|entries|] == e;
    if i :| 0 <= i < |entries| && entries[i].Some? && Less(config, entries[i].value) {
      assert more[i] == entries[i];
    }
  }

  lemma NothingPassed(since: History, c: string)
    requires NoneAfter(since, c)
    ensures !Passed(since, c)
  {
    forall i | 0 <= i < |since| && since[i].Some?
      ensures !Less(c, since[i].value)
    {
      AtMostIffNotLess(since[i].value, c);
    }
  }

  /** What an appended stamp does to the end of the entries. */
  lemma StampEndsWell(entries: History, c: string, v: string)
    requires AtMost(c, v) && NoneAfter(entries, v)
    ensures EndsWell(entries + [Some(v)], c)
  {
    PassedAppend(entries, Some(v), c);
    if v == c {
      NothingPassed(entries, c);
      LessIrreflexive(c);
    }
  }

  /** A stamp is appended: there was none at the end, or only the config stamp itself, or it is a needless one. */
  predicate StampFits(entries: History, c: string, v: string, extra: nat) {
    !EndsStamped(entries) || (entries[|entries| - 1] == Some(c) && v != c) || extra > 0
  }

  lemma StampCounts(since: History, c: string, v: string, needless: nat, extra: nat)
    requires OnePerLife(since, c, needless) && AtMost(c, v) && NoneAfter(since, v) && StampFits(since, c, v, extra)
    ensures OnePerLife(since + [Some(v)], c, needless + extra)
  {
    StampEndsWell(since, c, v);
    CountAppend(since, Some(v));
    PassedAppend(since, Some(v), c);
  }

  lemma NewerCounts(newer: History, c: string, v: string, here: nat, extra: nat)
    requires AtMostTwo(newer, c, here) && AtMost(c, v) && NoneAfter(newer, v) && StampFits(newer, c, v, extra)
    requires newer != [] ==> EndsStamped(newer)
    ensures AtMostTwo(newer + [Some(v)], c, here + extra)
  {
    StampEndsWell(newer, c, v);
    PassedAppend(newer, Some(v), c);
  }

  lemma RecreationCounts(since: History, c: string, needless: nat)
    requires OnePerLife(since, c, needless)
    ensures OnePerLife(since + [None], c, needless)
  {
    CountAppend(since, None);
    PassedAppend(since, None, c);
  }

  lemma SuffixAppend(all: History, from: nat, e: Option<string>)
    requires from <= |all|
    ensures (all + [e])[from..] == all[from..] + [e]
  {
  }

  lemma NoneAfterSuffix(all: History, from: nat, v: string)
    requires from <= |all| && NoneAfter(all, v)
    ensures NoneAfter(all[from..], v)
  {
  }

  /** A stamp fits the entries from `from` on if a restart is due, or else as a needless one. */
  lemma RestartFits(all: History, from: nat, c: string, v: string, extra: nat)
    requires from <= |all| && all != [] && all[|all| - 1] != Some(v)
    requires EndsWell(all[from..], c) && (Asks(Some(c), all[|all| - 1]) || extra > 0)
    ensures StampFits(all[from..], c, v, extra)
  {
    var entries := all[from..];
    if EndsStamped(entries) && extra == 0 {
      assert entries[|entries| - 1] == all[|all| - 1];
      AtMostIffNotLess(entries[|entries| - 1].value, c);
    }
  }

  lemma SinceCounts(all: History, from: nat, c: string, v: string, needless: nat, extra: nat)
    requires from <= |all| && all != [] && all[|all| - 1] != Some(v) && AtMost(c, v) && NoneAfter(all, v)
    requires OnePerLife(all[from..], c, needless) && (Asks(Some(c), all[|all| - 1]) || extra > 0)
    ensures OnePerLife((all + [Some(v)])[from..], c, needless + extra)
  {
    RestartFits(all, from, c, v, extra);
    NoneAfterSuffix(all, from, v);
    StampCounts(all[from..], c, v, needless, extra);
    SuffixAppend(all, from, Some(v));
  }

  lemma HereCounts(all: History, mark: nat, c: string, v: string, here: nat, extra: nat)
    requires mark <= |all| && all != [] && all[|all| - 1] != Some(v) && AtMost(c, v) && NoneAfter(all, v)
    requires mark < |all| ==> all[|all| - 1].Some?
    requires AtMostTwo(all[mark..], c, here) && (Asks(Some(c), all[|all| - 1]) || extra > 0)
    ensures AtMostTwo((all + [Some(v)])[mark..], c, here + extra)
  {
    RestartFits(all, mark, c, v, extra);
    NoneAfterSuffix(all, mark, v);
    NewerCounts(all[mark..], c, v, here, extra);
    SuffixAppend(all, mark, Some(v));
  }

  lemma NoneAfterAppend(all: History, v: string)
    requires NoneAfter(all, v)
    ensures NoneAfter(all + [Some(v)], v)
  {
  }

  /** `s'` is `s` with the stamp set, and one more needless restart if it was not due. */
  predicate SetTo(s: State, s': State, now: string, extra: nat)
    requires s.all != []
  {
    && s'.all == Stamped(s.all, now) && s'.config == s.config && s'.from == s.from && s'.mark == s.mark
    && s'.needless == s.needless + extra && s'.needlessHere == s.needlessHere + extra
  }

  lemma StampKeepsInv(s: State, s': State, now: string, extra: nat)
    requires InvAt(s, now) && s.config.Some? && (RestartDue(s) || extra > 0)
    requires SetTo(s, s', now, extra) && Template(s) != Some(now)
    ensures InvAt(s', now)
  {
    SinceCounts(s.all, s.from, s.config.value, now, s.needless, extra);
    HereCounts(s.all, s.mark, s.config.value, now, s.needlessHere, extra);
    NoneAfterAppend(s.all, now);
  }

  lemma RestartKeepsInv(s: State, s': State, now: string, extra: nat)
    requires InvAt(s, now) && s.config.Some? && (RestartDue(s) || extra > 0) && SetTo(s, s', now, extra)
    ensures InvAt(s', now)
  {
    if Template(s) != Some(now) {
      StampKeepsInv(s, s', now, extra);
    }
  }

  lemma RecreateKeepsInv(s: State, now: string)
    requires InvAt(s, now)
    ensures InvAt(s.(all := s.all + [None], mark := |s.all| + 1, needlessHere := 0), now)
  {
    SuffixAppend(s.all, s.from, None);
    CountAppend(s.all[s.from..], None);
    assert (s.all + [None])[|s.all| + 1..] == [];
    if s.config.Some? {
      RecreationCounts(s.all[s.from..], s.config.value, s.needless);
    }
  }

  lemma ConfigureKeepsInv(s: State, now: string)
    requires InvAt(s, now)
    ensures InvAt(State(s.now, Some(now), s.all, |s.all|, |s.all|, 0, 0), now)
  {
    assert s.all[|s.all|..] == [];
  }

  lemma RestartMoveKeepsInv(s: State, at: string, landed: bool, lag: nat)
    requires Inv(s) && AtMost(s.now, at)
    ensures Inv(Apply(s, Restart(at, landed, lag)))
  {
    TimePasses(s, s.now, at);
    if landed && Asks(s.config, Copy(s.all, lag)) {
      RestartKeepsInv(s, Apply(s, Restart(at, landed, lag)), at, if RestartDue(s) then 0 else 1);
    }
  }

  lemma ApplyKeepsInv(s: State, m: Move)
    requires Inv(s) && Allowed(s, m)
    ensures Inv(Apply(s, m))
  {
    match m
    case Tick(to) => TimePasses(s, s.now, to);
    case Configure(stamped) => ConfigureKeepsInv(s, s.now);
    case Restart(at, landed, lag) => RestartMoveKeepsInv(s, at, landed, lag);
    case Recreate => RecreateKeepsInv(s, s.now);
  }

  predicate AllowedRun(s: State, moves: seq<Move>)
    requires s.all != []
    decreases |moves|
  {
    moves == [] || (Allowed(s, moves[0]) && AllowedRun(Apply(s, moves[0]), moves[1..]))
  }

  function Run(s: State, moves: seq<Move>): (s': State)
    requires s.all != []
    ensures s'.all != []
    decreases |moves|
  {
    if moves == [] then s else Run(Apply(s, moves[0]), moves[1..])
  }

  /** How many restart steps decide on an old copy. */
  function Lagging(moves: seq<Move>): nat {
    if moves == [] then 0 else Lagging(moves[1..]) + if moves[0].Restart? && moves[0].lag > 0 then 1 else 0
  }

  lemma {:induction false} RunKeepsInv(s: State, moves: seq<Move>)
    requires Inv(s) && AllowedRun(s, moves)
    ensures Inv(Run(s, moves))
    decreases |moves|
  {
    if moves != [] {
      ApplyKeepsInv(s, moves[0]);
      RunKeepsInv(Apply(s, moves[0]), moves[1..]);
    }
  }

  lemma {:induction false} OnlyLaggingIsNeedless(s: State, moves: seq<Move>)
    requires s.all != [] && s.needlessHere <= s.needless
    ensures var s' := Run(s, moves);
            s'.needlessHere <= s'.needless <= s.needless + Lagging(moves)
    decreases |moves|
  {
    if moves != [] {
      OnlyLaggingIsNeedless(Apply(s, moves[0]), moves[1..]);
    }
  }

  /**
    In every run: since the config stamp, or since the StatefulSet was last created if that is later, the template's
    stamp takes at most two new values; since the config stamp, at most two more than the StatefulSet was recreated.
    To both comes at most one for each restart step that decided on an old copy of the template.
  */
  lemma AtMostTwoRestarts(s: State, moves: seq<Move>)
    requires Inv(s) && AllowedRun(s, moves) && s.needlessHere <= s.needless
    ensures var s', extra := Run(s, moves), s.needless + Lagging(moves);
            && s'.from <= s'.mark <= |s'.all| <= s'.mark + 2 + extra
            && Count(s'.all[s'.from..]) <= Recreations(s'.all[s'.from..]) + 2 + extra
  {
    RunKeepsInv(s, moves);
    OnlyLaggingIsNeedless(s, moves);
  }

  /** The StatefulSet is recreated and the restart step lands, `k` times. */
  function Cycles(k: nat, at: string): seq<Move> {
    if k == 0 then [] else [Recreate, Restart(at, true, 0)] + Cycles(k - 1, at)
  }

  lemma CycleCounts(all: History, from: nat, stamp: string)
    requires from <= |all|
    ensures var all' := all + [None] + [Some(stamp)];
            && Count(all'[from..]) == Count(all[from..]) + 1
            && Recreations(all'[from..]) == Recreations(all[from..]) + 1
  {
    var since := all[from..];
    SuffixAppend(all, from, None);
    SuffixAppend(all + [None], from, Some(stamp));
    CountAppend(since, None);
    CountAppend(since + [None], Some(stamp));
  }

  /** One such cycle. */
  lemma CycleStamps(s: State, at: string)
    requires s.all != [] && s.config.Some?
    ensures var s' := Apply(Apply(s, Recreate), Restart(at, true, 0));
            s'.config == s.config && s'.from == s.from && s'.all == s.all + [None] + [Some(at)]
  {
  }

  /** Every recreation loses the stamp and so brings a restart of its own: there is no bound without counting them. */
  lemma {:induction false} EachRecreationRestarts(s: State, k: nat, at: string)
    requires s.all != [] && s.from <= |s.all| && s.config.Some?
    ensures var s' := Run(s, Cycles(k, at));
            && s'.config == s.config && s'.from == s.from <= |s'.all|
            && Count(s'.all[s'.from..]) == Count(s.all[s.from..]) + k
            && Recreations(s'.all[s'.from..]) == Recreations(s.all[s.from..]) + k
    decreases k
  {
    if k != 0 {
      var rest := Cycles(k - 1, at);
      assert Cycles(k, at)[1..] == [Restart(at, true, 0)] + rest && ([Restart(at, true, 0)] + rest)[1..] == rest;
      CycleStamps(s, at);
      CycleCounts(s.all, s.from, at);
      EachRecreationRestarts(Apply(Apply(s, Recreate), Restart(at, true, 0)), k - 1, at);
    }
  }

  /** A restart decided upon with a copy from before the last one sets a stamp although none is due. */
  lemma OldCopyRestartsAgain(before: string, now: string, at: string)
    requires Less(before, now) && Less(now, at)
    ensures var s := State(now, Some(before), [None, Some(now)], 1, 1, 0, 0);
            && Inv(s) && !RestartDue(s)
            && Apply(s, Restart(at, true, 1)).all == s.all + [Some(at)]
  {
    OneStampIsInv(now, before, now);
    LessIrreflexive(at);
  }

  /** A cluster that was configured at `c` and restarted at `stamp`, which is now. */
  lemma OneStampIsInv(now: string, c: string, stamp: string)
    requires Less(c, stamp)
    ensures InvAt(State(now, Some(c), [None, Some(stamp)], 1, 1, 0, 0), stamp)
  {
    var s0 := State(now, None, [None], 1, 1, 0, 0);
    var s1 := State(now, Some(c), [None], 1, 1, 0, 0);
    assert InvAt(s0, c);
    ConfigureKeepsInv(s0, c);
    TimePasses(s1, c, stamp);
    RestartKeepsInv(s1, State(now, Some(c), [None, Some(stamp)], 1, 1, 0, 0), stamp, 0);
  }

  /** The template's stamp after it has been set to `to`, and whether a restart is still due then. */
  lemma StampSettles(s: State, s': State, to: string)
    requires s.all != [] && s.config.Some? && AtMost(s.config.value, to)
    requires s'.all == Stamped(s.all, to) && s'.config == s.config
    ensures Template(s') == Some(to) && (RestartDue(s') <==> s.config.value == to)
  {
    LessIrreflexive(to);
  }

  /** A restart that lands settles the matter unless it falls into the very second of the config stamp. */
  lemma LandedRestartSettles(s: State, at: string)
    requires s.all != [] && RestartDue(s) && AtMost(s.config.value, s.now) && AtMost(s.now, at)
    ensures RestartDue(Apply(s, Restart(at, true, 0))) <==> s.config.value == at
  {
    AtMostTrans(s.config.value, s.now, at);
    StampSettles(s, Apply(s, Restart(at, true, 0)), at);
  }

  // ---- Whether a change of the configuration restarts the nodes ----

  ghost predicate NoConfigure(moves: seq<Move>) {
    forall m :: m in moves ==> !m.Configure?
  }

  /** The restart step decides, on an old copy, to set another stamp although no restart is due. */
  predicate Rewrites(s: State, m: Move)
    requires s.all != []
  {
    && m.Restart? && m.landed && !RestartDue(s) && Asks(s.config, Copy(s.all, m.lag))
    && Template(s) != Some(m.at)
  }

  predicate RewritesIn(s: State, moves: seq<Move>)
    requires s.all != []
    decreases |moves|
  {
    moves != [] && (Rewrites(s, moves[0]) || RewritesIn(Apply(s, moves[0]), moves[1..]))
  }

  /** What a run without another change of the configuration adds to the template's history. */
  ghost predicate Extends(s: State, s': State, grows: bool, now: string, now': string)
    requires s.all != [] && s'.all != []
  {
    && s'.config == s.config && s.all <= s'.all && AtMost(now, now')
    && (forall i :: |s.all| <= i < |s'.all| ==>
          if s.config.None? then s'.all[i].None? else s'.all[i].Some? ==> AtMost(now, s'.all[i].value))
    && (grows ==> |s.all| < |s'.all|)
    && (!grows && !RestartDue(s) ==> s'.all == s.all)
  }

  lemma MoveExtends(s: State, m: Move)
    requires s.all != [] && !m.Configure? && Allowed(s, m)
    ensures var s' := Apply(s, m);
            Extends(s, s', m.Recreate? || Rewrites(s, m), s.now, s'.now)
  {
  }

  lemma ExtendsTrans(s: State, s1: State, s': State, a: bool, b: bool, now: string, now1: string, now': string)
    requires s.all != [] && s1.all != [] && s'.all != []
    requires Extends(s, s1, a, now, now1) && Extends(s1, s', b, now1, now')
    ensures Extends(s, s', a || b, now, now')
  {
    AtMostTrans(now, now1, now');
    forall i | |s.all| <= i < |s'.all|
      ensures if s.config.None? then s'.all[i].None? else s'.all[i].Some? ==> AtMost(now, s'.all[i].value)
    {
      if i < |s1.all| {
        assert s'.all[i] == s1.all[i];
      } else if s'.all[i].Some? && s.config.Some? {
        AtMostTrans(now, now1, s'.all[i].value);
      }
    }
  }

  lemma {:induction false} RunExtends(s: State, moves: seq<Move>)
    requires s.all != [] && NoConfigure(moves) && AllowedRun(s, moves)
    ensures var s' := Run(s, moves);
            Extends(s, s', Recreate in moves || RewritesIn(s, moves), s.now, s'.now)
    decreases |moves|
  {
    if moves != [] {
      var m, rest, s1 := moves[0], moves[1..], Apply(s, moves[0]);
      assert moves == [m] + rest;
      MoveExtends(s, m);
      RunExtends(s1, rest);
      ExtendsTrans(s, s1, Run(s1, rest), m.Recreate? || Rewrites(s, m),
                   Recreate in rest || RewritesIn(s1, rest),
                   s.now, s1.now, Run(s1, rest).now);
    }
  }

  lemma NewerIsNew(all: History, c: string, stamp: string)
    requires NoneAfter(all, c) && Less(c, stamp)
    ensures Some(stamp) !in all
  {
    AtMostIffNotLess(stamp, c);
  }

  /** A stamp not before `now` was there already only if it is from this very second. */
  lemma OldOnlyInSameSecond(all: History, now: string, stamp: string)
    requires NoneAfter(all, now) && AtMost(now, stamp)
    ensures Some(stamp) in all <==> stamp == now && Some(now) in all
  {
    if Some(stamp) in all {
      AtMostIffNotLess(stamp, now);
      AtMostIffNotLess(now, stamp);
      LessTotal(now, stamp);
    }
  }

  /** The template was replaced since the change, once the restart step has nothing left to do. */
  lemma SettledMeansReplaced(s: State, stamped: bool, moves: seq<Move>)
    requires s.all != [] && NoneAfter(s.all, s.now) && NoConfigure(moves)
    requires AllowedRun(Apply(s, Configure(stamped)), moves)
    requires !RestartDue(Run(Apply(s, Configure(stamped)), moves))
    ensures var s1 := Apply(s, Configure(stamped));
            |s.all| < |Run(s1, moves).all| <==>
              stamped || RestartDue(s) || Recreate in moves || RewritesIn(s1, moves)
  {
    var s1 := Apply(s, Configure(stamped));
    var s' := Run(s1, moves);
    RunExtends(s1, moves);
    if stamped {
      NewerIsNew(s.all, s1.config.value, Template(s').value);
    }
  }

  /** The restart step sets the stamp. */
  predicate SetsStamp(s: State, m: Move)
    requires s.all != []
  {
    m.Restart? && m.landed && Asks(s.config, Copy(s.all, m.lag))
  }

  /** Every stamp set in the run is `text`. */
  predicate StampsOnly(s: State, moves: seq<Move>, text: string)
    requires s.all != []
    decreases |moves|
  {
    moves == [] ||
    (&& (SetsStamp(s, moves[0]) ==> moves[0].at == text)
     && StampsOnly(Apply(s, moves[0]), moves[1..], text))
  }

  lemma {:induction false} OnlyThatStamp(s: State, moves: seq<Move>, text: string)
    requires s.all != [] && NoConfigure(moves) && StampsOnly(s, moves, text)
    ensures var s' := Run(s, moves);
            && |s.all| <= |s'.all|
            && forall i :: |s.all| <= i < |s'.all| && s'.all[i].Some? ==> s'.all[i] == Some(text)
    ensures s.all <= Run(s, moves).all
    decreases |moves|
  {
    if moves != [] {
      var s1 := Apply(s, moves[0]);
      assert moves[0] in moves && forall m :: m in moves[1..] ==> m in moves;
      OnlyThatStamp(s1, moves[1..], text);
      var s' := Run(s, moves);
      assert forall i :: |s.all| <= i < |s1.all| ==> s'.all[i] == s1.all[i];
    }
  }

  /** A run that ends with a stamp no later than its start has set no other. */
  lemma {:induction false} LastStampBounds(s: State, moves: seq<Move>, text: string)
    requires s.all != [] && s.config.Some? && NoConfigure(moves) && AllowedRun(s, moves)
    requires AtMost(text, s.now) && Template(Run(s, moves)) == Some(text)
    ensures StampsOnly(s, moves, text)
    decreases |moves|
  {
    if moves != [] {
      var m, rest, s1 := moves[0], moves[1..], Apply(s, moves[0]);
      assert m in moves && forall k :: k in rest ==> k in moves;
      MoveExtends(s, m);
      AtMostTrans(text, s.now, s1.now);
      LastStampBounds(s1, rest, text);
      if SetsStamp(s, m) {
        RunExtends(s1, rest);
        StampIsBounded(s1, Run(s1, rest), m.at, text);
      }
    }
  }

  /** The template was stamped `t` in `s`, not before `text`, and is stamped `text` in the end. */
  lemma StampIsBounded(s: State, s': State, t: string, text: string)
    requires s.all != [] && s'.all != [] && Template(s) == Some(t) && Template(s') == Some(text) && s.config.Some?
    requires s.all <= s'.all && AtMost(text, t)
    requires forall i :: |s.all| <= i < |s'.all| && s'.all[i].Some? ==> AtMost(t, s'.all[i].value)
    ensures t == text
  {
    if |s.all| < |s'.all| {
      AtMostIffNotLess(text, t);
      AtMostIffNotLess(t, text);
      LessTotal(t, text);
    }
  }

  /** The template was stamped before in the second in which the configuration changes, and is so again, only. */
  predicate SecondTaken(s: State, moves: seq<Move>)
    requires s.all != []
  {
    Some(s.now) in s.all && StampsOnly(s, moves, s.now)
  }

  /** The template at the end of a run that replaced it is from the second it started in just if all its stamps are. */
  lemma EndsInSecondIff(s: State, moves: seq<Move>)
    requires s.all != [] && s.config.Some? && NoConfigure(moves) && AllowedRun(s, moves)
    requires |s.all| < |Run(s, moves).all| && Template(Run(s, moves)).Some?
    ensures Template(Run(s, moves)) == Some(s.now) <==>
            StampsOnly(s, moves, s.now)
  {
    var text := s.now;
    if Template(Run(s, moves)) == Some(text) {
      LastStampBounds(s, moves, text);
    }
    if StampsOnly(s, moves, text) {
      OnlyThatStamp(s, moves, text);
    }
  }

  /**
    After a change of the configuration, once the restart step has nothing left to do, the template differs from
    every template there was before the change in exactly these cases: the change was stamped; or there is an older
    config stamp, a restart was already due, or is decided upon because of an old copy, or the StatefulSet is
    recreated, and the second is not taken; or there is no config stamp, and the StatefulSet loses a stamp it always
    had.
  */
  lemma SettledMeansRestarted(s: State, stamped: bool, moves: seq<Move>)
    requires s.all != [] && NoneAfter(s.all, s.now) && NoConfigure(moves)
    requires AllowedRun(Apply(s, Configure(stamped)), moves)
    requires !RestartDue(Run(Apply(s, Configure(stamped)), moves))
    ensures Template(Run(Apply(s, Configure(stamped)), moves)) !in s.all <==>
              || stamped
              || (s.config.Some? && (RestartDue(s) || Recreate in moves || RewritesIn(s, moves)) &&
                  !SecondTaken(s, moves))
              || (s.config.None? && Recreate in moves && None !in s.all)
  {
    var s1 := Apply(s, Configure(stamped));
    var s' := Run(s1, moves);
    RunExtends(s1, moves);
    SettledMeansReplaced(s, stamped, moves);
    if stamped {
      NewerIsNew(s.all, s1.config.value, Template(s').value);
    } else if |s.all| < |s'.all| && s.config.Some? {
      OldOnlyInSameSecond(s.all, s.now, Template(s').value);
      EndsInSecondIff(s, moves);
    } else if |s.all| == |s'.all| {
      assert s'.all == s.all && Template(s') in s.all;
    } else {
      NoStampsWithoutConfig(s, moves);
    }
  }

  lemma {:induction false} NoStampsWithoutConfig(s: State, moves: seq<Move>)
    requires s.all != [] && s.config.None? && NoConfigure(moves)
    ensures !RewritesIn(s, moves)
    decreases |moves|
  {
    if moves != [] {
      assert moves[0] in moves && forall m :: m in moves[1..] ==> m in moves;
      NoStampsWithoutConfig(Apply(s, moves[0]), moves[1..]);
    }
  }

  /** A change whose stamp fails, on a cluster that was never restarted, is followed by no restart. */
  lemma LostStampIsReal(now: string, at: string, lag: nat)
    requires AtMost(now, at)
    ensures var s := State(now, None, [None], 1, 1, 0, 0);
            var s' := Run(Apply(s, Configure(false)), [Restart(at, true, lag)]);
            Inv(s) && !RestartDue(s) && s'.all == s.all && !RestartDue(s')
  {
    assert [Restart(at, true, lag)][1..] == [];
  }

  /** A restart in the second of the last one gives the recreated StatefulSet the template it had before. */
  lemma SameSecondIsReal(before: string, now: string)
    requires Less(before, now)
    ensures var stamp, moves := Some(now), [Recreate, Restart(now, true, 0)];
            var s := State(now, Some(before), [None, stamp], 1, 1, 0, 0);
            var s' := Run(Apply(s, Configure(false)), moves);
            && Inv(s) && !RestartDue(s) && SecondTaken(s, moves)
            && s'.all == [None, stamp, None, stamp] && !RestartDue(s')
  {
    var c, stamp := before, Some(now);
    var s := State(now, Some(c), [None, stamp], 1, 1, 0, 0);
    OneStampIsInv(now, c, now);
    var moves := [Recreate, Restart(now, true, 0)];
    var s1 := Apply(s, Recreate);
    var s2 := Apply(s1, Restart(now, true, 0));
    assert moves[1..] == [Restart(now, true, 0)] && moves[1..][1..] == [];
    assert Run(s1, moves[1..]) == Run(s2, []) == s2;
    assert StampsOnly(s1, moves[1..], now);
  }

  // ---- The two writes as the code does them ----

  const CONF_KEY: string := "rabbitmq.com/serverConfUpdatedAt"
  const RESTART_KEY: string := "rabbitmq.com/lastRestartAt"

  function Entry(annotations: map<string, string>, key: string): Option<string> {
    if key in annotations then Some(annotations[key]) else None
  }

  /** Whatever the order in which the map is walked. */
  method MergeWithFilter(keep: string -> bool, base: map<string, string>, extra: map<string, string>)
      returns (result: map<string, string>)
    ensures forall k :: k in result <==> k in base || (k in extra && keep(k))
    ensures forall k :: k in result ==> result[k] == if k in extra && keep(k) then extra[k] else base[k]
  {
    result := base;
    var rest := extra.Keys;
    while rest != {}
      invariant rest <= extra.Keys
      invariant forall k :: k in result <==> k in base || (k in extra && k !in rest && keep(k))
      invariant forall k :: k in result ==>
                  result[k] == if k in extra && k !in rest && keep(k) then extra[k] else base[k]
      decreases rest
    {
      var k :| k in rest;
      if keep(k) {
        result := result[k := extra[k]];
      }
      rest := rest - {k};
    }
  }

  class Stamps {
    const zone: string
    var now: string
    var serverConf: map<string, string>  // annotations of the ConfigMap
    var template: map<string, string>    // annotations of the pod template
    var all: History
    var from: nat
    var mark: nat
    var needless: nat
    var needlessHere: nat

    predicate Valid()
      reads this
    {
      all != [] && all[|all| - 1] == Entry(template, RESTART_KEY)
    }

    function View(): State
      reads this
    {
      State(now, Entry(serverConf, CONF_KEY), all, from, mark, needless, needlessHere)
    }

    constructor (zone: string, now: string, serverConf: map<string, string>, template: map<string, string>)
      ensures Valid() && this.zone == zone && all == [Entry(template, RESTART_KEY)] && from == mark == 1
      ensures needless == needlessHere == 0
      ensures this.now == now && this.serverConf == serverConf && this.template == template
    {
      this.zone, this.now, this.serverConf, this.template := zone, now, serverConf, template;
      all, from, mark := [if RESTART_KEY in template then Some(template[RESTART_KEY]) else None], 1, 1;
      needless, needlessHere := 0, 0;
    }

    method AnnotateServerConf(landed: bool)
      requires Valid()
      modifies this`serverConf, this`from, this`mark, this`needless, this`needlessHere
      ensures Valid() && View() == Apply(old(View()), Configure(landed))
      ensures serverConf - {CONF_KEY} == old(serverConf) - {CONF_KEY}
    {
      if landed {
        serverConf := serverConf[CONF_KEY := now];
        from, mark, needless, needlessHere := |all|, |all|, 0, 0;
      }
    }

    method SetStamp(stamp: string, extra: nat)
      requires Valid()
      modifies this`template, this`all, this`needless, this`needlessHere
      ensures Valid() && all == Stamped(old(all), stamp)
      ensures needless == old(needless) + extra && needlessHere == old(needlessHere) + extra
      ensures template - {RESTART_KEY} == old(template) - {RESTART_KEY}
    {
      needless, needlessHere := needless + extra, needlessHere + extra;
      template := template[RESTART_KEY := stamp];
      all := Stamped(all, stamp);
    }

    /** Decides on a copy of the template that may be old, and writes on the current one. */
    method RestartIfNeeded(text: string, landed: bool, lag: nat)
      requires Valid()
      modifies this`now, this`template, this`all, this`needless, this`needlessHere
      ensures Valid() && View() == Apply(old(View()), Restart(text, landed, lag))
      ensures template - {RESTART_KEY} == old(template) - {RESTART_KEY}
    {
      now := text;
      if CONF_KEY !in serverConf {
        return;
      }
      var restartedAt := all[if lag < |all| then |all| - 1 - lag else 0];
      if restartedAt.Some? && Less(serverConf[CONF_KEY], restartedAt.value) {
        return;
      }
      if landed {
        var due := !(RESTART_KEY in template && Less(serverConf[CONF_KEY], template[RESTART_KEY]));
        SetStamp(text, if due then 0 else 1);
      }
    }

    method RestartStatefulSetIfNeeded(at: Time, landed: bool, lag: nat)
      requires Valid()
      modifies this`now, this`template, this`all, this`needless, this`needlessHere
      ensures Valid() && View() == Apply(old(View()), Restart(Format(at, zone), landed, lag))
      ensures template - {RESTART_KEY} == old(template) - {RESTART_KEY}
    {
      RestartIfNeeded(Format(at, zone), landed, lag);
    }

    /** Every reconcile step rebuilds the template; its annotations start from those it had, so the stamp survives. */
    method RebuildTemplate(defaults: map<string, string>)
      requires Valid() && RESTART_KEY !in defaults
      modifies this`template
      ensures Valid() && View() == old(View())
      ensures template == old(template) + defaults
    {
      var result := MergeWithFilter(_ => true, template, defaults);
      assert result == template + defaults;
      template := result;
    }

    /** A StatefulSet that is not found is built from nothing, so its template has the defaults only. */
    method RecreateStatefulSet(defaults: map<string, string>)
      requires Valid() && RESTART_KEY !in defaults
      modifies this`template, this`all, this`mark, this`needlessHere
      ensures Valid() && View() == Apply(old(View()), Recreate)
      ensures template == defaults
    {
      var result := MergeWithFilter(_ => true, map[], defaults);
      assert result == defaults;
      template := result;
      all, mark, needlessHere := all + [None], |all| + 1, 0;
    }
  }
}
