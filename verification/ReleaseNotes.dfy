/** Version order, selecting release notes between two versions, and publishing them once. */
module ReleaseNotes {
  import opened Wrappers
  import opened Decimal

  type Version = seq<nat>

  // ----- Versions -----

  /** Tuple order: the first difference decides, and a proper prefix comes first. */
  predicate Before(a: Version, b: Version) {
    b != [] && (a == [] || a[0] < b[0] || (a[0] == b[0] && Before(a[1..], b[1..])))
  }

  predicate UpTo(a: Version, b: Version) {
    a == b || Before(a, b)
  }

  lemma {:induction false} BeforeTransitive(a: Version, b: Version, c: Version)
    requires Before(a, b) && Before(b, c)
    ensures Before(a, c)
  {
    if a != [] && a[0] == b[0] && b[0] == c[0] { BeforeTransitive(a[1..], b[1..], c[1..]); }
  }

  lemma {:induction false} BeforeIsStrict(a: Version, b: Version)
    requires Before(a, b)
    ensures a != b && !Before(b, a)
  {
    if a != [] && a[0] == b[0] { BeforeIsStrict(a[1..], b[1..]); }
  }

  lemma {:induction false} BeforeIsTotal(a: Version, b: Version)
    ensures Before(a, b) || Before(b, a) || a == b
  {
    if a != [] && b != [] && a[0] == b[0] {
      BeforeIsTotal(a[1..], b[1..]);
      assert a == [a[0]] + a[1..] && b == [b[0]] + b[1..];
    }
  }

  // ----- Reading version strings -----

  function StripV(s: string): string {
    if s != "" && s[0] == 'v' then StripV(s[1..]) else s
  }

  /** The text before the first occurrence of a character. */
  function UntilChar(s: string, c: char): string {
    if s == "" || s[0] == c then "" else [s[0]] + UntilChar(s[1..], c)
  }

  function SplitOn(s: string, c: char): seq<string> {
    if s == "" then [""]
    else if s[0] == c then [""] + SplitOn(s[1..], c)
    else
      var rest := SplitOn(s[1..], c);
      if rest == [] then [[s[0]]] else [[s[0]] + rest[0]] + rest[1..]
  }

  function LeadingDigits(s: string): (digits: string)
    ensures AllDigits(digits)
  {
    if s == "" || !IsDigit(s[0]) then "" else [s[0]] + LeadingDigits(s[1..])
  }

  /** The first run of digits anywhere in a part. */
  function FirstNumber(part: string): Option<nat> {
    if part == "" then None
    else if IsDigit(part[0]) then Some(Value(LeadingDigits(part)))
    else FirstNumber(part[1..])
  }

  function Numbers(parts: seq<string>): Version {
    if parts == [] then []
    else
      var rest := Numbers(parts[1..]);
      if FirstNumber(parts[0]).Some? then [FirstNumber(parts[0]).value] + rest else rest
  }

  function ParseVersion(text: string): Version {
    var parsed := Numbers(SplitOn(UntilChar(StripV(text), '-'), '.'));
    if parsed == [] then [0, 0, 0] else parsed
  }

  function PrintVersion(v: Version): string {
    if v == [] then "" else if |v| == 1 then Print(v[0]) else Print(v[0]) + "." + PrintVersion(v[1..])
  }

  predicate Plain(s: string) {
    forall i :: 0 <= i < |s| ==> IsDigit(s[i]) || s[i] == '.'
  }

  lemma {:induction false} PrintedIsPlain(v: Version)
    requires v != []
    ensures Plain(PrintVersion(v)) && PrintVersion(v) != "" && IsDigit(PrintVersion(v)[0])
  {
    PrintRoundTrip(v[0]);
    if |v| > 1 { PrintedIsPlain(v[1..]); }
  }

  lemma {:induction false} UntilStopsAt(s: string, c: char, rest: string)
    requires c !in s
    ensures UntilChar(s + [c] + rest, c) == s && UntilChar(s, c) == s
  {
    if s == "" {
      assert s + [c] + rest == [c] + rest;
    } else {
      UntilStopsAt(s[1..], c, rest);
      assert s + [c] + rest == [s[0]] + (s[1..] + [c] + rest);
    }
  }

  lemma {:induction false} SplitFirst(s: string, c: char, rest: string)
    requires c !in s
    ensures SplitOn(s, c) == [s] && SplitOn(s + [c] + rest, c) == [s] + SplitOn(rest, c)
  {
    if s == "" {
      assert s + [c] + rest == [c] + rest;
    } else {
      SplitFirst(s[1..], c, rest);
      assert s + [c] + rest == [s[0]] + (s[1..] + [c] + rest);
      assert s == [s[0]] + s[1..];
    }
  }

  lemma {:induction false} DigitsLead(s: string)
    requires AllDigits(s)
    ensures LeadingDigits(s) == s
  {
    if s != "" { DigitsLead(s[1..]); }
  }

  lemma {:induction false} NumbersOfPrinted(v: Version)
    requires v != []
    ensures Numbers(SplitOn(PrintVersion(v), '.')) == v
  {
    var first := Print(v[0]);
    PrintRoundTrip(v[0]);
    DigitsLead(first);
    assert FirstNumber(first) == Some(v[0]);
    if |v| == 1 {
      SplitFirst(first, '.', "");
      assert SplitOn(first, '.')[1..] == [];
    } else {
      NumbersOfPrinted(v[1..]);
      SplitFirst(first, '.', PrintVersion(v[1..]));
      assert PrintVersion(v) == first + ['.'] + PrintVersion(v[1..]);
      assert ([first] + SplitOn(PrintVersion(v[1..]), '.'))[1..] == SplitOn(PrintVersion(v[1..]), '.');
    }
  }

  /** A printed version reads back, with or without the tag prefix and whatever pre-release suffix follows. */
  lemma VersionRoundTrip(v: Version, suffix: string)
    requires v != []
    ensures ParseVersion(PrintVersion(v)) == v
    ensures ParseVersion("v" + PrintVersion(v)) == v
    ensures ParseVersion(PrintVersion(v) + "-" + suffix) == v
  {
    var text := PrintVersion(v);
    PrintedIsPlain(v);
    NumbersOfPrinted(v);
    UntilStopsAt(text, '-', suffix);
    assert ("v" + text)[1..] == text;
    assert text + "-" + suffix == text + ['-'] + suffix;
    assert StripV(text) == text && StripV(text + "-" + suffix) == text + "-" + suffix;
  }

  // ----- Selecting sections -----

  /** One changelog section: the version its header names, if it names one, and its trimmed body. */
  datatype Section = Section(version: Option<Version>, body: string)

  predicate InRange(section: Section, last: Version, current: Version) {
    && section.version.Some? && section.body != ""
    && Before(last, section.version.value) && UpTo(section.version.value, current)
  }

  function Selected(sections: seq<Section>, last: Version, current: Version): seq<Section> {
    if sections == [] then []
    else
      var rest := Selected(sections[..|sections| - 1], last, current);
      var section := sections[|sections| - 1];
      if InRange(section, last, current) then rest + [section] else rest
  }

  /** The release notes between two versions; none when nothing was released or nothing was written. */
  method ExtractReleaseNotes(sections: seq<Section>, last: Version, current: Version)
    returns (notes: Option<seq<Section>>)
    ensures notes == Notes(sections, last, current)
  {
    if UpTo(current, last) { return None; }
    var matching: seq<Section> := [];
    for n := 0 to |sections|
      invariant matching == Selected(sections[..n], last, current)
    {
      assert sections[..n + 1][..n] == sections[..n];
      if InRange(sections[n], last, current) { matching := matching + [sections[n]]; }
    }
    assert sections[..|sections|] == sections;
    return if matching == [] then None else Some(matching);
  }

  function Notes(sections: seq<Section>, last: Version, current: Version): Option<seq<Section>> {
    if UpTo(current, last) || Selected(sections, last, current) == [] then None
    else Some(Selected(sections, last, current))
  }

  /** A section is selected exactly as often as it is written, when it is in range, and never otherwise. */
  lemma {:induction false} SelectedCount(sections: seq<Section>, last: Version, current: Version, x: Section)
    ensures multiset(Selected(sections, last, current))[x] ==
      if InRange(x, last, current) then multiset(sections)[x] else 0
  {
    if sections != [] {
      var shorter := sections[..|sections| - 1];
      SelectedCount(shorter, last, current, x);
      assert sections == shorter + [sections[|sections| - 1]];
    }
  }

  lemma RangesMeet(section: Section, a: Version, b: Version, c: Version)
    requires UpTo(a, b) && UpTo(b, c)
    ensures InRange(section, a, c) <==> InRange(section, a, b) || InRange(section, b, c)
    ensures !(InRange(section, a, b) && InRange(section, b, c))
  {
    if section.version.Some? {
      var v := section.version.value;
      BeforeIsTotal(v, b);
      if Before(a, b) && Before(b, v) { BeforeTransitive(a, b, v); }
      if Before(v, b) && Before(b, c) { BeforeTransitive(v, b, c); }
      if Before(b, v) { BeforeIsStrict(b, v); }
      if Before(v, b) { BeforeIsStrict(v, b); }
    }
  }

  /** Notes for (a, c] are exactly those for (a, b] together with those for (b, c], with no section in both. */
  lemma NotesSplitAtAnyVersion(sections: seq<Section>, a: Version, b: Version, c: Version)
    requires UpTo(a, b) && UpTo(b, c)
    ensures multiset(Selected(sections, a, c))
      == multiset(Selected(sections, a, b)) + multiset(Selected(sections, b, c))
    ensures multiset(Selected(sections, a, b)) !! multiset(Selected(sections, b, c))
  {
    forall x: Section
      ensures multiset(Selected(sections, a, c))[x]
        == multiset(Selected(sections, a, b))[x] + multiset(Selected(sections, b, c))[x]
      ensures multiset(Selected(sections, a, b))[x] == 0 || multiset(Selected(sections, b, c))[x] == 0
    {
      SelectedCount(sections, a, b, x);
      SelectedCount(sections, b, c, x);
      SelectedCount(sections, a, c, x);
      RangesMeet(x, a, b, c);
    }
  }

  // ----- Publishing -----

  /** A recipient's receipt of one event. */
  datatype Recipient = Recipient(event: string, group: int)

  /** The stored marker, the bodies published so far and the attempts counted on each receipt. */
  datatype Releases = Releases(marker: Option<string>, bodies: seq<seq<Section>>, receipts: map<Recipient, nat>)

  /** One start of the release: the running version, the notes shipped with it, and whether the body store takes it. */
  datatype Start = Start(current: string, sections: seq<Section>, bodyStored: bool, groups: seq<int>)

  function EventKey(current: string): string {
    "release." + StripV(current)
  }

  /** Record a pending receipt for each group in turn; an existing one is reset to no attempts. */
  function Queued(receipts: map<Recipient, nat>, event: string, groups: seq<int>): map<Recipient, nat> {
    if groups == [] then receipts
    else Queued(receipts, event, groups[..|groups| - 1])[Recipient(event, groups[|groups| - 1]) := 0]
  }

  function Published(r: Releases, start: Start): Releases {
    if r.marker.None? then r.(marker := Some(start.current))
    else
      var last := ParseVersion(r.marker.value);
      var current := ParseVersion(start.current);
      if UpTo(current, last) then r
      else
        match Notes(start.sections, last, current)
        case None => r.(marker := Some(start.current))
        case Some(notes) =>
          if !start.bodyStored then r
          else
            Releases(
              Some(start.current), r.bodies + [notes], Queued(r.receipts, EventKey(start.current), start.groups))
  }

  class ReleaseUpdateService {
    var marker: Option<string>
    var bodies: seq<seq<Section>>
    var receipts: map<Recipient, nat>

    constructor ()
      ensures View() == Releases(None, [], map[])
    {
      marker, bodies, receipts := None, [], map[];
    }

    function View(): Releases
      reads this
    {
      Releases(marker, bodies, receipts)
    }

    /** Queue one event for every approved group and advance the marker; a body that cannot be stored leaves it. */
    method Publish(start: Start) returns (queued: nat)
      modifies this
      ensures View() == Published(old(View()), start)
      ensures queued == if |bodies| > |old(bodies)| then |start.groups| else 0
    {
      if marker.None? {
        marker := Some(start.current);
        return 0;
      }
      var last := ParseVersion(marker.value);
      var current := ParseVersion(start.current);
      if UpTo(current, last) { return 0; }
      var notes := ExtractReleaseNotes(start.sections, last, current);
      if notes.None? {
        marker := Some(start.current);
        return 0;
      }
      if !start.bodyStored { return 0; }
      bodies := bodies + [notes.value];
      queued := 0;
      var key := EventKey(start.current);
      for n := 0 to |start.groups|
        invariant receipts == Queued(old(receipts), key, start.groups[..n]) && queued == n
        invariant bodies == old(bodies) + [notes.value] && marker == old(marker)
      {
        assert start.groups[..n + 1][..n] == start.groups[..n];
        receipts := receipts[Recipient(key, start.groups[n]) := 0];
        queued := queued + 1;
      }
      assert start.groups[..|start.groups|] == start.groups;
      marker := Some(start.current);
    }
  }

  function RunReleases(r: Releases, starts: seq<Start>): Releases
    decreases |starts|
  {
    if starts == [] then r else RunReleases(Published(r, starts[0]), starts[1..])
  }

  function MarkerVersion(r: Releases): Version
    requires r.marker.Some?
  {
    ParseVersion(r.marker.value)
  }

  /** How often a section appears over all published bodies. */
  function Appearances(bodies: seq<seq<Section>>, x: Section): nat {
    if bodies == [] then 0 else Appearances(bodies[..|bodies| - 1], x) + multiset(bodies[|bodies| - 1])[x]
  }

  lemma StepAppearances(r: Releases, start: Start, x: Section)
    requires r.marker.Some?
    ensures var after := Published(r, start);
      && after.marker.Some? && UpTo(MarkerVersion(r), MarkerVersion(after))
      && (MarkerVersion(after) != MarkerVersion(r) ==> after.marker == Some(start.current))
      && Appearances(after.bodies, x) == Appearances(r.bodies, x)
           + if InRange(x, MarkerVersion(r), MarkerVersion(after)) then multiset(start.sections)[x] else 0
  {
    hide ParseVersion, Before;
    var last := MarkerVersion(r);
    var current := ParseVersion(start.current);
    var after := Published(r, start);
    NothingInEmptyRange(x, last);
    if !UpTo(current, last) {
      BeforeIsTotal(last, current);
      SelectedCount(start.sections, last, current, x);
      if after.bodies != r.bodies { assert after.bodies[..|after.bodies| - 1] == r.bodies; }
    }
  }

  lemma NothingInEmptyRange(x: Section, v: Version)
    ensures !InRange(x, v, v)
  {
    if x.version.Some? {
      if Before(v, x.version.value) { BeforeIsStrict(v, x.version.value); }
    }
  }

  /** The marker never moves back, whatever versions are started in whatever order. */
  lemma {:induction false} MarkerNeverDecreases(r: Releases, starts: seq<Start>)
    requires r.marker.Some?
    ensures RunReleases(r, starts).marker.Some?
    ensures UpTo(MarkerVersion(r), MarkerVersion(RunReleases(r, starts)))
    decreases |starts|
  {
    hide ParseVersion, Before, Published;
    if starts != [] {
      var next := Published(r, starts[0]);
      StepAppearances(r, starts[0], Section(None, ""));
      MarkerNeverDecreases(next, starts[1..]);
      var a, b, c := MarkerVersion(r), MarkerVersion(next), MarkerVersion(RunReleases(next, starts[1..]));
      if Before(a, b) && Before(b, c) { BeforeTransitive(a, b, c); }
    }
  }

  /** Every started release that reaches a section's version ships that section once. */
  predicate Ships(starts: seq<Start>, x: Section) {
    forall k :: 0 <= k < |starts| && x.version.Some? && UpTo(x.version.value, ParseVersion(starts[k].current)) ==>
      multiset(starts[k].sections)[x] == 1
  }

  /**
   * Over any run with rollbacks, repeated starts and failed body stores, a written section appears in
   * exactly one published body when its version lies between the first and the last marker, and in none
   * otherwise.
   */
  lemma {:induction false} PublishedExactlyOnce(r: Releases, starts: seq<Start>, x: Section)
    requires r.marker.Some? && Ships(starts, x)
    ensures var after := RunReleases(r, starts);
      && after.marker.Some?
      && Appearances(after.bodies, x) == Appearances(r.bodies, x)
           + if InRange(x, MarkerVersion(r), MarkerVersion(after)) then 1 else 0
    decreases |starts|
  {
    hide ParseVersion, Before, Published;
    if starts == [] {
      NothingInEmptyRange(x, MarkerVersion(r));
    } else {
      var next := Published(r, starts[0]);
      StepAppearances(r, starts[0], x);
      assert Ships(starts[1..], x);
      PublishedExactlyOnce(next, starts[1..], x);
      MarkerNeverDecreases(next, starts[1..]);
      RangesMeet(x, MarkerVersion(r), MarkerVersion(next), MarkerVersion(RunReleases(next, starts[1..])));
      NothingInEmptyRange(x, MarkerVersion(r));
      if InRange(x, MarkerVersion(r), MarkerVersion(next)) { assert next.marker == Some(starts[0].current); }
    }
  }

  // ----- Receipts -----

  lemma {:induction false} QueuedReceipts(receipts: map<Recipient, nat>, event: string, groups: seq<int>, to: Recipient)
    ensures var after := Queued(receipts, event, groups);
      if to.event == event && to.group in groups then to in after && after[to] == 0
      else (to in after <==> to in receipts) && (to in receipts ==> after[to] == receipts[to])
  {
    if groups != [] { QueuedReceipts(receipts, event, groups[..|groups| - 1], to); }
  }

  /** A new body was published at this start. */
  predicate Publishes(r: Releases, start: Start) {
    Published(r, start).bodies != r.bodies
  }

  /** Every receipt belongs to a release the marker has reached. */
  ghost predicate ReceiptsBehind(r: Releases) {
    r.marker.Some? &&
    forall to :: to in r.receipts ==>
      exists text: string :: to.event == EventKey(text) && UpTo(ParseVersion(text), MarkerVersion(r))
  }

  lemma EventKeyDecidesVersion(a: string, b: string)
    requires EventKey(a) == EventKey(b)
    ensures ParseVersion(a) == ParseVersion(b)
  {
    assert EventKey(a)[|"release."|..] == StripV(a);
    assert EventKey(b)[|"release."|..] == StripV(b);
  }

  /**
   * A start that publishes creates one fresh pending receipt per approved group and no other; one that
   * does not publish touches none. No receipt of an earlier release is ever reset.
   */
  lemma {:induction false} PublishQueuesFreshReceipts(r: Releases, start: Start, to: Recipient)
    requires ReceiptsBehind(r)
    ensures var after := Published(r, start);
      && ReceiptsBehind(after)
      && (to in r.receipts ==> to in after.receipts && after.receipts[to] == r.receipts[to])
      && (to in after.receipts && to !in r.receipts <==>
            Publishes(r, start) && to.event == EventKey(start.current) && to.group in start.groups)
      && (to in after.receipts && to !in r.receipts ==> after.receipts[to] == 0)
  {
    hide ParseVersion, Before, EventKey, Selected;
    var after := Published(r, start);
    StepAppearances(r, start, Section(None, ""));
    if Publishes(r, start) {
      QueuedReceipts(r.receipts, EventKey(start.current), start.groups, to);
      if to in r.receipts { EarlierEventsDiffer(r, start, to); }
    }
    forall other | other in after.receipts
      ensures exists text: string :: other.event == EventKey(text) && UpTo(ParseVersion(text), MarkerVersion(after))
    {
      if Publishes(r, start) { QueuedReceipts(r.receipts, EventKey(start.current), start.groups, other); }
      if other in r.receipts {
        var text: string :| other.event == EventKey(text) && UpTo(ParseVersion(text), MarkerVersion(r));
        UpToTransitive(ParseVersion(text), MarkerVersion(r), MarkerVersion(after));
      } else {
        assert other.event == EventKey(start.current);
      }
    }
  }

  lemma UpToTransitive(a: Version, b: Version, c: Version)
    requires UpTo(a, b) && UpTo(b, c)
    ensures UpTo(a, c)
  {
    if Before(a, b) && Before(b, c) { BeforeTransitive(a, b, c); }
  }

  lemma EarlierEventsDiffer(r: Releases, start: Start, to: Recipient)
    requires ReceiptsBehind(r) && Publishes(r, start) && to in r.receipts
    ensures to.event != EventKey(start.current)
  {
    hide ParseVersion, Before, EventKey, Selected;
    var text: string :| to.event == EventKey(text) && UpTo(ParseVersion(text), MarkerVersion(r));
    if to.event == EventKey(start.current) { EventKeyDecidesVersion(text, start.current); }
  }

  /** Over any run a receipt once queued is never queued again. */
  lemma {:induction false} ReceiptsAreNeverReset(r: Releases, starts: seq<Start>, to: Recipient)
    requires ReceiptsBehind(r) && to in r.receipts
    ensures to in RunReleases(r, starts).receipts && RunReleases(r, starts).receipts[to] == r.receipts[to]
    decreases |starts|
  {
    hide Published, ReceiptsBehind, Publishes;
    if starts != [] {
      PublishQueuesFreshReceipts(r, starts[0], to);
      ReceiptsAreNeverReset(Published(r, starts[0]), starts[1..], to);
    }
  }

  // ----- The first start, and when a start publishes -----

  const NO_RELEASES := Releases(None, [], map[])

  /** Versions are ordered by their first difference; a version that goes on is later than one that stops there. */
  lemma {:induction false} BeforeExactly(a: Version, b: Version)
    ensures Before(a, b) <==> exists k: nat :: DiffersUpAt(a, b, k)
  {
    if a != [] && b != [] && a[0] == b[0] {
      BeforeExactly(a[1..], b[1..]);
      if k: nat :| DiffersUpAt(a[1..], b[1..], k) {
        assert a[..k + 1] == [a[0]] + a[1..][..k] && b[..k + 1] == [b[0]] + b[1..][..k];
        assert DiffersUpAt(a, b, k + 1);
      }
      if k: nat :| DiffersUpAt(a, b, k) {
        assert k > 0;
        assert a[1..][..k - 1] == a[..k][1..] && b[1..][..k - 1] == b[..k][1..];
        assert DiffersUpAt(a[1..], b[1..], k - 1);
      }
    } else if b != [] && (a == [] || a[0] < b[0]) {
      assert DiffersUpAt(a, b, 0);
    }
  }

  /** The versions agree up to position k, where b is greater or only b goes on. */
  predicate DiffersUpAt(a: Version, b: Version, k: nat) {
    k <= |a| && k < |b| && a[..k] == b[..k] && (k == |a| || a[k] < b[k])
  }

  /** Selecting keeps the order in which sections are written. */
  lemma {:induction false} SelectedInOrder(a: seq<Section>, b: seq<Section>, last: Version, current: Version)
    ensures Selected(a + b, last, current) == Selected(a, last, current) + Selected(b, last, current)
    decreases |b|
  {
    if b == [] {
      assert a + b == a;
    } else {
      SelectedInOrder(a, b[..|b| - 1], last, current);
      assert (a + b)[..|a + b| - 1] == a + b[..|b| - 1];
    }
  }

  /** The section names a version after `last` and not after `current`, and has text. */
  predicate Written(section: Section, last: Version, current: Version) {
    && section.version.Some? && section.body != ""
    && Before(last, section.version.value) && !Before(current, section.version.value)
  }

  predicate SomethingWritten(sections: seq<Section>, last: Version, current: Version) {
    exists i :: 0 <= i < |sections| && Written(sections[i], last, current)
  }

  lemma {:induction false} SelectedIsEmptyExactly(sections: seq<Section>, last: Version, current: Version)
    ensures Selected(sections, last, current) != [] <==> SomethingWritten(sections, last, current)
  {
    hide Before;
    if sections != [] {
      var shorter := sections[..|sections| - 1];
      var section := sections[|sections| - 1];
      SelectedIsEmptyExactly(shorter, last, current);
      if section.version.Some? { BeforeIsTotalOrder(section.version.value, current); }
      if i :| 0 <= i < |shorter| && Written(shorter[i], last, current) { assert sections[i] == shorter[i]; }
      if i :| 0 <= i < |sections| && Written(sections[i], last, current) {
        if i < |shorter| { assert shorter[i] == sections[i]; }
      }
    }
  }

  lemma BeforeIsTotalOrder(a: Version, b: Version)
    ensures UpTo(a, b) <==> !Before(b, a)
  {
    BeforeIsTotal(a, b);
    if Before(a, b) { BeforeIsStrict(a, b); }
    if Before(b, a) { BeforeIsStrict(b, a); }
  }

  /** The running version is later than the stored one. */
  predicate Newer(r: Releases, start: Start) {
    r.marker.Some? && Before(MarkerVersion(r), ParseVersion(start.current))
  }

  /**
   * A start publishes exactly when a version is stored, the running one is newer, something was written since and
   * the body store takes it; it then adds one body. The marker becomes the running version exactly on the first
   * start, or when a newer version has nothing to publish or its body is stored.
   */
  lemma {:induction false} PublishesExactly(r: Releases, start: Start)
    ensures var after := Published(r, start);
      var written := Newer(r, start) && SomethingWritten(start.sections, MarkerVersion(r), ParseVersion(start.current));
      && (Publishes(r, start) <==> written && start.bodyStored)
      && (Publishes(r, start) ==>
            after.bodies == r.bodies + [Selected(start.sections, MarkerVersion(r), ParseVersion(start.current))])
      && after.marker
         == (if r.marker.None? || (Newer(r, start) && (start.bodyStored || !written)) then Some(start.current)
             else r.marker)
  {
    hide ParseVersion, Before;
    if r.marker.Some? {
      BeforeIsTotalOrder(ParseVersion(start.current), MarkerVersion(r));
      SelectedIsEmptyExactly(start.sections, MarkerVersion(r), ParseVersion(start.current));
    }
  }

  predicate AllStored(starts: seq<Start>) {
    forall k :: 0 <= k < |starts| ==> starts[k].bodyStored
  }

  /** The version is at least each of those started. */
  predicate Covers(version: Version, starts: seq<Start>) {
    forall k :: 0 <= k < |starts| ==> UpTo(ParseVersion(starts[k].current), version)
  }

  predicate IsStarted(marker: string, starts: seq<Start>) {
    exists k :: 0 <= k < |starts| && starts[k].current == marker
  }

  /** From a stored version on, with bodies stored, the marker is the greatest version seen. */
  lemma {:induction false} MarkerKeepsUp(r: Releases, starts: seq<Start>)
    requires r.marker.Some? && AllStored(starts)
    ensures var after := RunReleases(r, starts);
      && after.marker.Some? && Covers(MarkerVersion(after), starts)
      && (after.marker == r.marker || IsStarted(after.marker.value, starts))
    decreases |starts|
  {
    hide ParseVersion, Before, Published, SomethingWritten;
    if starts != [] {
      var next := Published(r, starts[0]);
      PublishesExactly(r, starts[0]);
      BeforeIsTotalOrder(ParseVersion(starts[0].current), MarkerVersion(r));
      MarkerKeepsUp(next, starts[1..]);
      MarkerNeverDecreases(next, starts[1..]);
      var after := RunReleases(next, starts[1..]);
      UpToTransitive(ParseVersion(starts[0].current), MarkerVersion(next), MarkerVersion(after));
      forall k | 0 <= k < |starts| ensures UpTo(ParseVersion(starts[k].current), MarkerVersion(after)) {
        if k > 0 { assert starts[k] == starts[1..][k - 1]; }
      }
      if IsStarted(after.marker.value, starts[1..]) {
        var k :| 0 <= k < |starts[1..]| && starts[1..][k].current == after.marker.value;
        assert starts[k + 1] == starts[1..][k];
      }
    }
  }

  /**
   * After any start a version is stored, whatever failed; with bodies stored it is the greatest one started. The
   * first start on a fresh database publishes nothing.
   */
  lemma {:induction false} MarkerIsGreatestStarted(starts: seq<Start>)
    requires starts != []
    ensures var after := RunReleases(NO_RELEASES, starts);
      && after.marker.Some?
      && (AllStored(starts) ==> IsStarted(after.marker.value, starts) && Covers(MarkerVersion(after), starts))
    ensures Published(NO_RELEASES, starts[0]) == Releases(Some(starts[0].current), [], map[])
  {
    var first := Published(NO_RELEASES, starts[0]);
    PublishesExactly(NO_RELEASES, starts[0]);
    MarkerNeverDecreases(first, starts[1..]);
    if AllStored(starts) {
      hide ParseVersion, Before, Published, SomethingWritten;
      MarkerKeepsUp(first, starts[1..]);
      var after := RunReleases(first, starts[1..]);
      assert after == RunReleases(NO_RELEASES, starts);
      forall k | 0 <= k < |starts| ensures UpTo(ParseVersion(starts[k].current), MarkerVersion(after)) {
        if k > 0 { assert starts[k] == starts[1..][k - 1]; }
      }
      if IsStarted(after.marker.value, starts[1..]) {
        var k :| 0 <= k < |starts[1..]| && starts[1..][k].current == after.marker.value;
        assert starts[k + 1] == starts[1..][k];
      }
    }
  }

  /** Over any run from a fresh database every section is published once after the first start, or never. */
  lemma {:induction false} FreshDatabasePublishesOnce(starts: seq<Start>, x: Section)
    requires starts != [] && Ships(starts, x)
    ensures var after := RunReleases(NO_RELEASES, starts);
      && after.marker.Some?
      && Appearances(after.bodies, x)
         == if InRange(x, ParseVersion(starts[0].current), MarkerVersion(after)) then 1 else 0
  {
    hide ParseVersion, Before;
    var first := Published(NO_RELEASES, starts[0]);
    assert Ships(starts[1..], x);
    PublishedExactlyOnce(first, starts[1..], x);
  }

  // ----- Spellings -----

  /** A version's tag prefix changes neither its event nor what it means. */
  lemma {:induction false} PrefixDoesNotMatter(text: string)
    ensures EventKey("v" + text) == EventKey(text) && ParseVersion("v" + text) == ParseVersion(text)
  {
    assert ("v" + text)[1..] == text;
  }

  lemma {:induction false} NoNumberWithoutDigits(part: string)
    requires forall i :: 0 <= i < |part| ==> !IsDigit(part[i])
    ensures FirstNumber(part).None?
  {
    if part != "" { NoNumberWithoutDigits(part[1..]); }
  }

  lemma {:induction false} PartsHaveNoDigits(s: string, c: char)
    requires forall i :: 0 <= i < |s| ==> !IsDigit(s[i])
    ensures Numbers(SplitOn(s, c)) == []
    ensures SplitOn(s, c) != [] && forall i :: 0 <= i < |SplitOn(s, c)[0]| ==> !IsDigit(SplitOn(s, c)[0][i])
  {
    if s != "" {
      var rest := SplitOn(s[1..], c);
      PartsHaveNoDigits(s[1..], c);
      assert SplitOn(s, c)[1..] == if s[0] == c then rest else rest[1..];
      NoNumberWithoutDigits(SplitOn(s, c)[0]);
      NoNumberWithoutDigits(rest[0]);
    }
  }

  lemma {:induction false} CutKeepsOut(s: string, c: char)
    requires forall i :: 0 <= i < |s| ==> !IsDigit(s[i])
    ensures forall i :: 0 <= i < |UntilChar(s, c)| ==> !IsDigit(UntilChar(s, c)[i])
  {
    if s != "" { CutKeepsOut(s[1..], c); }
  }

  lemma {:induction false} StripKeepsOut(s: string)
    requires forall i :: 0 <= i < |s| ==> !IsDigit(s[i])
    ensures forall i :: 0 <= i < |StripV(s)| ==> !IsDigit(StripV(s)[i])
  {
    if s != "" { StripKeepsOut(s[1..]); }
  }

  /** A text without digits counts as version 0.0.0, before every release. */
  lemma {:induction false} NoDigitsIsZero(text: string)
    requires forall i :: 0 <= i < |text| ==> !IsDigit(text[i])
    ensures ParseVersion(text) == [0, 0, 0]
  {
    StripKeepsOut(text);
    CutKeepsOut(StripV(text), '-');
    PartsHaveNoDigits(UntilChar(StripV(text), '-'), '.');
  }
}
