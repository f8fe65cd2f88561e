/** The scoreboard of a competition series (CompetitionSeries::Scoreboard):
    the rounds of all the series' competitions, grouped by discipline, the
    categories built from the competitions' sections, and the number of
    table columns. The database is an in-memory `Store` of rows; each query
    of the source becomes a selection, a grouping and an ordering of those
    rows. */
module Scoreboard {
  import opened Collections

  type EventId = nat
  type Discipline = string

  /** A row of Event::Round. */
  datatype RoundRow = RoundRow(id: nat, event: EventId, discipline: Discipline, number: int, createdAt: int)

  /** A row of Event::Section: a category of one competition. */
  datatype SectionRow = SectionRow(event: EventId, name: string, order: int)

  /** An Event::Competitor, with the name of its section resolved. */
  datatype Competitor = Competitor(id: nat, event: EventId, sectionName: string)

  /** An Event::Result: the result of one competitor in one round. */
  datatype Result = Result(id: nat, roundId: nat, competitorId: nat)

  /** The rows the queries read. */
  datatype Store = Store(rounds: seq<RoundRow>, sections: seq<SectionRow>, competitors: seq<Competitor>, results: seq<Result>)

  /** A competition series: the events scored together. */
  datatype Series = Series(competitions: set<EventId>)

  /** The parsed scoreboard parameters: the slugs of the excluded rounds. */
  datatype Settings = Settings(excludedRounds: seq<string>)

  // ---------------------------------------------------------------------
  // Rounds

  /** A (discipline, number) pair: one round of the series. */
  datatype RoundKey = RoundKey(discipline: Discipline, number: int)

  function RowKey(r: RoundRow): RoundKey {
    RoundKey(r.discipline, r.number)
  }

  function DigitChar(d: nat): char
    requires d < 10
  {
    "0123456789"[d]
  }

  function Digits(n: nat): string
    decreases n
  {
    if n < 10 then [DigitChar(n)] else Digits(n / 10) + [DigitChar(n % 10)]
  }

  /** The slug of a round: its discipline, a hyphen and its number. */
  function Slug(k: RoundKey): (s: string)
    ensures |s| > |k.discipline| + 1
    ensures s[..|k.discipline|] == k.discipline && s[|k.discipline|] == '-'
  {
    k.discipline + "-" + (if k.number < 0 then "-" + Digits(-k.number) else Digits(k.number))
  }

  /** A round of the scoreboard; `excluded` is set once when it is built. */
  class Round {
    const discipline: Discipline
    const number: int
    var excluded: bool

    constructor (discipline: Discipline, number: int)
      ensures this.discipline == discipline && this.number == number
      ensures !excluded
    {
      this.discipline := discipline;
      this.number := number;
      excluded := false;
    }

    function Key(): RoundKey {
      RoundKey(discipline, number)
    }

    /** `excluded!`: marks the round as excluded from scoring. */
    method MarkExcluded()
      modifies this
      ensures excluded
    {
      excluded := true;
    }
  }

  function DisciplineOf(r: Round): Discipline {
    r.discipline
  }

  /** The round rows of the series' competitions. */
  function ScopedRounds(store: Store, series: Series): seq<RoundRow> {
    Filter(store.rounds, (r: RoundRow) => r.event in series.competitions)
  }

  /** min(created_at) over some rows. */
  function MinCreatedAt(rows: seq<RoundRow>): (t: int)
    requires rows != []
    ensures forall i :: 0 <= i < |rows| ==> t <= rows[i].createdAt
    ensures exists i :: 0 <= i < |rows| && rows[i].createdAt == t
  {
    if |rows| == 1 then rows[0].createdAt
    else
      var rest := MinCreatedAt(rows[1..]);
      assert forall i :: 1 <= i < |rows| ==> rows[i] == rows[1..][i - 1];
      if rows[0].createdAt <= rest then rows[0].createdAt else rest
  }

  /** One row of the distinct (discipline, number, min(created_at)) query. */
  datatype RoundEntry = RoundEntry(key: RoundKey, earliest: int)

  function EntryKey(e: RoundEntry): RoundKey {
    e.key
  }

  /** ORDER BY number, min(created_at). */
  predicate EntryLe(a: RoundEntry, b: RoundEntry) {
    a.key.number < b.key.number || (a.key.number == b.key.number && a.earliest <= b.earliest)
  }

  lemma EntryLeIsTotalPreorder()
    ensures TotalPreorder(EntryLe)
  {
  }

  function EntryKeys(es: seq<RoundEntry>): seq<RoundKey> {
    seq(|es|, i requires 0 <= i < |es| => es[i].key)
  }

  /** The summaries of some groups of round rows, in group order. */
  function Summaries(groups: seq<Group<RoundKey, RoundRow>>): seq<RoundEntry>
    requires forall g :: 0 <= g < |groups| ==> groups[g].items != []
  {
    seq(|groups|, g requires 0 <= g < |groups| => RoundEntry(groups[g].key, MinCreatedAt(groups[g].items)))
  }

  /** The rounds query over the series' round rows: one entry per distinct
      (discipline, number) of the rows, ordered by number and then by the
      earliest creation time of the pair's rows (see RoundEntriesSummarize). */
  function RoundEntries(rows: seq<RoundRow>): (es: seq<RoundEntry>)
    ensures forall i, j :: 0 <= i < j < |es| ==> es[i].key != es[j].key
  {
    var groups := GroupBy(rows, RowKey);
    GroupByGroups(rows, RowKey);
    assert ItemsMatch(groups, rows, RowKey);
    RoundEntriesSorted(rows, groups, Summaries(groups));
    Sort(Summaries(groups), EntryLe)
  }

  /** Each entry is a pair that occurs among the rows, with the earliest
      creation time of its rows; every pair of the rows has an entry; and
      the entries are ordered by number, then by that time. */
  lemma RoundEntriesSummarize(rows: seq<RoundRow>)
    ensures forall i, j :: 0 <= i < j < |RoundEntries(rows)| ==> EntryLe(RoundEntries(rows)[i], RoundEntries(rows)[j])
    ensures forall i :: 0 <= i < |RoundEntries(rows)| ==>
      && Matching(rows, RowKey, RoundEntries(rows)[i].key) != []
      && RoundEntries(rows)[i].earliest == MinCreatedAt(Matching(rows, RowKey, RoundEntries(rows)[i].key))
    ensures forall j :: 0 <= j < |rows| ==> RowKey(rows[j]) in EntryKeys(RoundEntries(rows))
  {
    var groups := GroupBy(rows, RowKey);
    GroupByGroups(rows, RowKey);
    assert ItemsMatch(groups, rows, RowKey);
    RoundEntriesSorted(rows, groups, Summaries(groups));
  }

  lemma RoundEntriesSorted(rows: seq<RoundRow>, groups: seq<Group<RoundKey, RoundRow>>, unsorted: seq<RoundEntry>)
    requires GroupsOf(groups, rows, RowKey)
    requires |unsorted| == |groups|
    requires forall g :: 0 <= g < |groups| ==>
      (groups[g].items != [] && unsorted[g] == RoundEntry(groups[g].key, MinCreatedAt(groups[g].items)))
    ensures forall i :: 0 <= i < |Sort(unsorted, EntryLe)| ==>
      && Matching(rows, RowKey, Sort(unsorted, EntryLe)[i].key) != []
      && Sort(unsorted, EntryLe)[i].earliest == MinCreatedAt(Matching(rows, RowKey, Sort(unsorted, EntryLe)[i].key))
    ensures forall i, j :: 0 <= i < j < |Sort(unsorted, EntryLe)| ==> Sort(unsorted, EntryLe)[i].key != Sort(unsorted, EntryLe)[j].key
    ensures forall j :: 0 <= j < |rows| ==> RowKey(rows[j]) in EntryKeys(Sort(unsorted, EntryLe))
    ensures forall i, j :: 0 <= i < j < |Sort(unsorted, EntryLe)| ==> EntryLe(Sort(unsorted, EntryLe)[i], Sort(unsorted, EntryLe)[j])
  {
    var es := Sort(unsorted, EntryLe);
    EntryLeIsTotalPreorder();
    SortSorted(unsorted, EntryLe);
    assert DistinctBy(unsorted, EntryKey);
    SortKeepsDistinct(unsorted, EntryLe, EntryKey);
    assert DistinctBy(es, EntryKey);
    forall i | 0 <= i < |es|
      ensures Matching(rows, RowKey, es[i].key) != []
      ensures es[i].earliest == MinCreatedAt(Matching(rows, RowKey, es[i].key))
    {
      assert es[i] in multiset(es);
      EntryFromGroup(rows, groups, unsorted, es[i]);
    }
    forall j | 0 <= j < |rows| ensures RowKey(rows[j]) in EntryKeys(es) {
      RowKeyInEntries(rows, groups, unsorted, es, j);
    }
  }

  lemma EntryFromGroup(rows: seq<RoundRow>, groups: seq<Group<RoundKey, RoundRow>>, unsorted: seq<RoundEntry>, e: RoundEntry)
    requires ItemsMatch(groups, rows, RowKey)
    requires |unsorted| == |groups|
    requires forall g :: 0 <= g < |groups| ==>
      (groups[g].items != [] && unsorted[g] == RoundEntry(groups[g].key, MinCreatedAt(groups[g].items)))
    requires e in unsorted
    ensures Matching(rows, RowKey, e.key) != []
    ensures e.earliest == MinCreatedAt(Matching(rows, RowKey, e.key))
  {
    var g :| 0 <= g < |unsorted| && unsorted[g] == e;
    assert groups[g].items == Matching(rows, RowKey, groups[g].key);
  }

  lemma RowKeyInEntries(rows: seq<RoundRow>, groups: seq<Group<RoundKey, RoundRow>>, unsorted: seq<RoundEntry>, es: seq<RoundEntry>, j: nat)
    requires KeysCovered(groups, rows, RowKey)
    requires |unsorted| == |groups|
    requires forall g :: 0 <= g < |groups| ==> unsorted[g].key == groups[g].key
    requires multiset(es) == multiset(unsorted)
    requires j < |rows|
    ensures RowKey(rows[j]) in EntryKeys(es)
  {
    var g := GroupIndex(groups, RowKey(rows[j]));
    assert unsorted[g] in multiset(unsorted);
    assert unsorted[g] in es;
    var i :| 0 <= i < |es| && es[i] == unsorted[g];
    assert EntryKeys(es)[i] == RowKey(rows[j]);
  }

  /** The (discipline, number) pairs of the rounds, in scoreboard order. */
  function RoundKeys(store: Store, series: Series): seq<RoundKey> {
    EntryKeys(RoundEntries(ScopedRounds(store, series)))
  }

  /** The rounds hold exactly one round per distinct (discipline, number)
      pair of the rounds of the series' competitions. */
  lemma RoundsOnePerPair(store: Store, series: Series)
    ensures forall i, j :: 0 <= i < j < |RoundKeys(store, series)| ==>
      RoundKeys(store, series)[i] != RoundKeys(store, series)[j]
    ensures forall k :: k in RoundKeys(store, series) <==>
      exists r :: r in store.rounds && r.event in series.competitions && RowKey(r) == k
  {
    forall k ensures k in RoundKeys(store, series) <==>
      exists r :: r in store.rounds && r.event in series.competitions && RowKey(r) == k
    {
      RoundKeyOccurs(store, series, k);
    }
  }

  lemma RoundKeyOccurs(store: Store, series: Series, k: RoundKey)
    ensures k in RoundKeys(store, series) <==>
      exists r :: r in store.rounds && r.event in series.competitions && RowKey(r) == k
  {
    var rows := ScopedRounds(store, series);
    var es := RoundEntries(rows);
    RoundEntriesSummarize(rows);
    var keys := RoundKeys(store, series);
    var p := (r: RoundRow) => r.event in series.competitions;
    if k in keys {
      var i :| 0 <= i < |keys| && keys[i] == k;
      assert es[i].key == k;
      var m := Matching(rows, RowKey, k)[0];
      FilterMember(store.rounds, p, m);
      assert RowKey(m) == k;
    }
    if r :| r in store.rounds && r.event in series.competitions && RowKey(r) == k {
      FilterMember(store.rounds, p, r);
      var j :| 0 <= j < |rows| && rows[j] == r;
      assert RowKey(rows[j]) in EntryKeys(es);
    }
  }

  /** The earliest creation time of the rows of round `k` in the series. */
  ghost function Earliest(store: Store, series: Series, k: RoundKey): int
    requires Matching(ScopedRounds(store, series), RowKey, k) != []
  {
    MinCreatedAt(Matching(ScopedRounds(store, series), RowKey, k))
  }

  /** The rounds are ordered by number, and rounds of the same number by the
      earliest creation time of their rows. */
  lemma RoundsOrdered(store: Store, series: Series, i: nat, j: nat)
    requires i < j < |RoundKeys(store, series)|
    ensures RoundKeys(store, series)[i].number <= RoundKeys(store, series)[j].number
    ensures Matching(ScopedRounds(store, series), RowKey, RoundKeys(store, series)[i]) != []
    ensures Matching(ScopedRounds(store, series), RowKey, RoundKeys(store, series)[j]) != []
    ensures RoundKeys(store, series)[i].number == RoundKeys(store, series)[j].number ==>
      Earliest(store, series, RoundKeys(store, series)[i]) <= Earliest(store, series, RoundKeys(store, series)[j])
  {
    var es := RoundEntries(ScopedRounds(store, series));
    RoundEntriesSummarize(ScopedRounds(store, series));
    assert EntryLe(es[i], es[j]);
  }

  /** The rounds, as built: the pairs of `keys`, each excluded iff its slug is excluded. */
  ghost predicate RoundsBuilt(rs: seq<Round>, keys: seq<RoundKey>, settings: Settings)
    reads set i | 0 <= i < |rs| :: rs[i]
  {
    && |rs| == |keys|
    && (forall i :: 0 <= i < |rs| ==> rs[i].Key() == keys[i])
    && (forall i :: 0 <= i < |rs| ==> rs[i].excluded == (Slug(keys[i]) in settings.excludedRounds))
  }

  /** What the standings see of a round: its pair and whether it is excluded. */
  datatype RoundView = RoundView(key: RoundKey, excluded: bool)

  /** The current state of some rounds, as the standings read it. */
  function Views(rs: seq<Round>): seq<RoundView>
    reads set i | 0 <= i < |rs| :: rs[i]
  {
    seq(|rs|, i reads rs requires 0 <= i < |rs| => RoundView(rs[i].Key(), rs[i].excluded))
  }

  /** The rounds the settings call for: the pairs of `keys`, each excluded
      iff its slug is among the excluded rounds. */
  function PlannedViews(keys: seq<RoundKey>, settings: Settings): seq<RoundView> {
    seq(|keys|, i requires 0 <= i < |keys| => RoundView(keys[i], Slug(keys[i]) in settings.excludedRounds))
  }

  /** Built rounds show the standings exactly their pairs and the exclusion
      flags the settings call for. */
  lemma ViewsOfBuilt(rs: seq<Round>, keys: seq<RoundKey>, settings: Settings)
    requires RoundsBuilt(rs, keys, settings)
    ensures Views(rs) == PlannedViews(keys, settings)
    ensures forall i :: 0 <= i < |Views(rs)| ==>
      Views(rs)[i].key == keys[i] && (Views(rs)[i].excluded <==> Slug(keys[i]) in settings.excludedRounds)
  {
  }

  /** rounds_by_discipline has one group per discipline of the rounds. The
      header spans two columns per round, one per discipline and four more. */
  function ColumnsFor(rs: seq<Round>): (n: nat)
    ensures n == 2 * |rs| + |KeySet(rs, DisciplineOf)| + 4
    ensures rs == [] ==> n == 4
  {
    var groups := GroupBy(rs, DisciplineOf);
    GroupByGroups(rs, DisciplineOf);
    GroupCount(groups, rs, DisciplineOf);
    assert rs == [] ==> KeySet(rs, DisciplineOf) == {};
    |rs| * 2 + |groups| + 4
  }

  /** rounds_by_discipline partitions the rounds: every round is in exactly
      one group, the group of its discipline; a group holds its rounds in
      scoreboard order; disciplines come in the order they first occur. */
  lemma RoundsByDisciplinePartitions(rs: seq<Round>, i: nat)
    requires i < |rs|
    ensures exists g :: 0 <= g < |GroupBy(rs, DisciplineOf)| && rs[i] in GroupBy(rs, DisciplineOf)[g].items
    ensures forall g, h ::
      (0 <= g < |GroupBy(rs, DisciplineOf)| && 0 <= h < |GroupBy(rs, DisciplineOf)| &&
       rs[i] in GroupBy(rs, DisciplineOf)[g].items && rs[i] in GroupBy(rs, DisciplineOf)[h].items) ==> g == h
    ensures forall g :: 0 <= g < |GroupBy(rs, DisciplineOf)| ==>
      && SubsequenceOf(GroupBy(rs, DisciplineOf)[g].items, rs)
      && forall r :: r in GroupBy(rs, DisciplineOf)[g].items ==> r.discipline == GroupBy(rs, DisciplineOf)[g].key
    ensures forall g, h :: 0 <= g < h < |GroupBy(rs, DisciplineOf)| ==>
      FirstIndex(rs, DisciplineOf, GroupBy(rs, DisciplineOf)[g].key) < FirstIndex(rs, DisciplineOf, GroupBy(rs, DisciplineOf)[h].key)
  {
    var groups := GroupBy(rs, DisciplineOf);
    GroupByGroups(rs, DisciplineOf);
    InExactlyOneGroup(groups, rs, DisciplineOf, i);
    assert ItemsMatch(groups, rs, DisciplineOf);
    forall g | 0 <= g < |groups|
      ensures SubsequenceOf(groups[g].items, rs)
      ensures forall r :: r in groups[g].items ==> r.discipline == groups[g].key
    {
      MatchingIsSubsequence(rs, DisciplineOf, groups[g].key);
    }
  }

  // ---------------------------------------------------------------------
  // Categories

  /** The section rows of the series' competitions. */
  function ScopedSections(store: Store, series: Series): seq<SectionRow> {
    Filter(store.sections, (s: SectionRow) => s.event in series.competitions)
  }

  function SectionName(s: SectionRow): string {
    s.name
  }

  function SumOrders(rows: seq<SectionRow>): int {
    if rows == [] then 0 else rows[0].order + SumOrders(rows[1..])
  }

  /** avg("order"): the exact mean of the rows' order values. */
  function MeanOrder(rows: seq<SectionRow>): real
    requires rows != []
  {
    SumOrders(rows) as real / |rows| as real
  }

  /** One row of the sections query: a name and the mean order of its rows. */
  datatype CategoryEntry = CategoryEntry(name: string, order: real)

  function EntryName(e: CategoryEntry): string {
    e.name
  }

  /** ORDER BY avg("order"). */
  predicate CategoryLe(a: CategoryEntry, b: CategoryEntry) {
    a.order <= b.order
  }

  lemma CategoryLeIsTotalPreorder()
    ensures TotalPreorder(CategoryLe)
  {
  }

  function EntryNames(es: seq<CategoryEntry>): seq<string> {
    seq(|es|, i requires 0 <= i < |es| => es[i].name)
  }

  /** The mean orders of some groups of section rows, in group order. */
  function MeanOrders(groups: seq<Group<string, SectionRow>>): seq<CategoryEntry>
    requires forall g :: 0 <= g < |groups| ==> groups[g].items != []
  {
    seq(|groups|, g requires 0 <= g < |groups| => CategoryEntry(groups[g].key, MeanOrder(groups[g].items)))
  }

  /** The sections query over the series' section rows: one entry per
      distinct section name (compared exactly), ordered by the mean order of
      that name's rows (see CategoryEntriesSummarize). */
  function CategoryEntries(rows: seq<SectionRow>): (es: seq<CategoryEntry>)
    ensures forall i, j :: 0 <= i < j < |es| ==> es[i].name != es[j].name
    ensures forall i, j :: 0 <= i < j < |es| ==> es[i].order <= es[j].order
  {
    var groups := GroupBy(rows, SectionName);
    GroupByGroups(rows, SectionName);
    assert ItemsMatch(groups, rows, SectionName);
    CategoryEntriesSorted(rows, groups, MeanOrders(groups));
    Sort(MeanOrders(groups), CategoryLe)
  }

  /** Each entry is a name that occurs among the rows, with the mean order
      of that name's rows, and every name of the rows has an entry. */
  lemma CategoryEntriesSummarize(rows: seq<SectionRow>)
    ensures forall i :: 0 <= i < |CategoryEntries(rows)| ==>
      && Matching(rows, SectionName, CategoryEntries(rows)[i].name) != []
      && CategoryEntries(rows)[i].order == MeanOrder(Matching(rows, SectionName, CategoryEntries(rows)[i].name))
    ensures forall j :: 0 <= j < |rows| ==> rows[j].name in EntryNames(CategoryEntries(rows))
  {
    var groups := GroupBy(rows, SectionName);
    GroupByGroups(rows, SectionName);
    assert ItemsMatch(groups, rows, SectionName);
    CategoryEntriesSorted(rows, groups, MeanOrders(groups));
  }

  lemma CategoryEntriesSorted(rows: seq<SectionRow>, groups: seq<Group<string, SectionRow>>, unsorted: seq<CategoryEntry>)
    requires GroupsOf(groups, rows, SectionName)
    requires |unsorted| == |groups|
    requires forall g :: 0 <= g < |groups| ==>
      (groups[g].items != [] && unsorted[g] == CategoryEntry(groups[g].key, MeanOrder(groups[g].items)))
    ensures forall i :: 0 <= i < |Sort(unsorted, CategoryLe)| ==>
      && Matching(rows, SectionName, Sort(unsorted, CategoryLe)[i].name) != []
      && Sort(unsorted, CategoryLe)[i].order == MeanOrder(Matching(rows, SectionName, Sort(unsorted, CategoryLe)[i].name))
    ensures forall i, j :: 0 <= i < j < |Sort(unsorted, CategoryLe)| ==> Sort(unsorted, CategoryLe)[i].name != Sort(unsorted, CategoryLe)[j].name
    ensures forall j :: 0 <= j < |rows| ==> rows[j].name in EntryNames(Sort(unsorted, CategoryLe))
    ensures forall i, j :: 0 <= i < j < |Sort(unsorted, CategoryLe)| ==> Sort(unsorted, CategoryLe)[i].order <= Sort(unsorted, CategoryLe)[j].order
  {
    assert DistinctBy(unsorted, EntryName);
    CategoryEntriesOrder(unsorted);
    CategoryEntriesContent(rows, groups, unsorted);
  }

  lemma CategoryEntriesOrder(unsorted: seq<CategoryEntry>)
    requires DistinctBy(unsorted, EntryName)
    ensures forall i, j :: 0 <= i < j < |Sort(unsorted, CategoryLe)| ==> Sort(unsorted, CategoryLe)[i].name != Sort(unsorted, CategoryLe)[j].name
    ensures forall i, j :: 0 <= i < j < |Sort(unsorted, CategoryLe)| ==> Sort(unsorted, CategoryLe)[i].order <= Sort(unsorted, CategoryLe)[j].order
  {
    var es := Sort(unsorted, CategoryLe);
    CategoryLeIsTotalPreorder();
    SortSorted(unsorted, CategoryLe);
    assert forall i, j :: 0 <= i < j < |es| ==> CategoryLe(es[i], es[j]);
    SortKeepsDistinct(unsorted, CategoryLe, EntryName);
    assert DistinctBy(es, EntryName);
  }

  lemma CategoryEntriesContent(rows: seq<SectionRow>, groups: seq<Group<string, SectionRow>>, unsorted: seq<CategoryEntry>)
    requires ItemsMatch(groups, rows, SectionName) && KeysCovered(groups, rows, SectionName)
    requires |unsorted| == |groups|
    requires forall g :: 0 <= g < |groups| ==>
      (groups[g].items != [] && unsorted[g] == CategoryEntry(groups[g].key, MeanOrder(groups[g].items)))
    ensures forall i :: 0 <= i < |Sort(unsorted, CategoryLe)| ==>
      && Matching(rows, SectionName, Sort(unsorted, CategoryLe)[i].name) != []
      && Sort(unsorted, CategoryLe)[i].order == MeanOrder(Matching(rows, SectionName, Sort(unsorted, CategoryLe)[i].name))
    ensures forall j :: 0 <= j < |rows| ==> rows[j].name in EntryNames(Sort(unsorted, CategoryLe))
  {
    var es := Sort(unsorted, CategoryLe);
    forall i | 0 <= i < |es|
      ensures Matching(rows, SectionName, es[i].name) != []
      ensures es[i].order == MeanOrder(Matching(rows, SectionName, es[i].name))
    {
      assert es[i] in multiset(es);
      CategoryFromGroup(rows, groups, unsorted, es[i]);
    }
    forall j | 0 <= j < |rows| ensures rows[j].name in EntryNames(es) {
      NameInEntries(rows, groups, unsorted, es, j);
    }
  }

  lemma CategoryFromGroup(rows: seq<SectionRow>, groups: seq<Group<string, SectionRow>>, unsorted: seq<CategoryEntry>, e: CategoryEntry)
    requires ItemsMatch(groups, rows, SectionName)
    requires |unsorted| == |groups|
    requires forall g :: 0 <= g < |groups| ==>
      (groups[g].items != [] && unsorted[g] == CategoryEntry(groups[g].key, MeanOrder(groups[g].items)))
    requires e in unsorted
    ensures Matching(rows, SectionName, e.name) != []
    ensures e.order == MeanOrder(Matching(rows, SectionName, e.name))
  {
    var g :| 0 <= g < |unsorted| && unsorted[g] == e;
    assert groups[g].items == Matching(rows, SectionName, groups[g].key);
  }

  lemma NameInEntries(rows: seq<SectionRow>, groups: seq<Group<string, SectionRow>>, unsorted: seq<CategoryEntry>, es: seq<CategoryEntry>, j: nat)
    requires KeysCovered(groups, rows, SectionName)
    requires |unsorted| == |groups|
    requires forall g :: 0 <= g < |groups| ==> unsorted[g].name == groups[g].key
    requires multiset(es) == multiset(unsorted)
    requires j < |rows|
    ensures rows[j].name in EntryNames(es)
  {
    var g := GroupIndex(groups, SectionName(rows[j]));
    assert unsorted[g] in multiset(unsorted);
    assert unsorted[g] in es;
    var i :| 0 <= i < |es| && es[i] == unsorted[g];
    assert EntryNames(es)[i] == rows[j].name;
  }

  /** The category names, in scoreboard order. */
  function CategoryNames(store: Store, series: Series): seq<string> {
    EntryNames(CategoryEntries(ScopedSections(store, series)))
  }

  /** The categories hold one entry per distinct section name of the series'
      competitions. */
  lemma CategoriesOnePerName(store: Store, series: Series)
    ensures forall i, j :: 0 <= i < j < |CategoryNames(store, series)| ==>
      CategoryNames(store, series)[i] != CategoryNames(store, series)[j]
    ensures forall name :: name in CategoryNames(store, series) <==>
      exists s :: s in store.sections && s.event in series.competitions && s.name == name
  {
    forall name ensures name in CategoryNames(store, series) <==>
      exists s :: s in store.sections && s.event in series.competitions && s.name == name
    {
      CategoryNameOccurs(store, series, name);
    }
  }

  lemma CategoryNameOccurs(store: Store, series: Series, name: string)
    ensures name in CategoryNames(store, series) <==>
      exists s :: s in store.sections && s.event in series.competitions && s.name == name
  {
    var rows := ScopedSections(store, series);
    var es := CategoryEntries(rows);
    CategoryEntriesSummarize(rows);
    var names := CategoryNames(store, series);
    var p := (s: SectionRow) => s.event in series.competitions;
    if name in names {
      var i :| 0 <= i < |names| && names[i] == name;
      assert es[i].name == name;
      var m := Matching(rows, SectionName, name)[0];
      FilterMember(store.sections, p, m);
      assert m.name == name;
    }
    if s :| s in store.sections && s.event in series.competitions && s.name == name {
      FilterMember(store.sections, p, s);
      var j :| 0 <= j < |rows| && rows[j] == s;
      assert rows[j].name in EntryNames(es);
    }
  }

  /** The mean order of the section rows of `name` in the series. */
  ghost function MeanOrderOf(store: Store, series: Series, name: string): real
    requires Matching(ScopedSections(store, series), SectionName, name) != []
  {
    MeanOrder(Matching(ScopedSections(store, series), SectionName, name))
  }

  /** The categories are ordered by ascending mean order of their sections. */
  lemma CategoriesOrdered(store: Store, series: Series, i: nat, j: nat)
    requires i < j < |CategoryNames(store, series)|
    ensures Matching(ScopedSections(store, series), SectionName, CategoryNames(store, series)[i]) != []
    ensures Matching(ScopedSections(store, series), SectionName, CategoryNames(store, series)[j]) != []
    ensures MeanOrderOf(store, series, CategoryNames(store, series)[i]) <= MeanOrderOf(store, series, CategoryNames(store, series)[j])
  {
    var es := CategoryEntries(ScopedSections(store, series));
    CategoryEntriesSummarize(ScopedSections(store, series));
    assert es[i].order <= es[j].order;
  }

  // casecmp?: equality ignoring the case of ASCII letters

  predicate IsUpper(c: char) {
    'A' <= c <= 'Z'
  }

  function Fold(c: char): char {
    if IsUpper(c) then (c as int + 32) as char else c
  }

  predicate CaseEqual(a: string, b: string) {
    |a| == |b| && forall i :: 0 <= i < |a| ==> Fold(a[i]) == Fold(b[i])
  }

  /** Two characters that are the same letter up to case. */
  predicate SameUpToCase(c: char, d: char) {
    c == d || (IsUpper(c) && d == (c as int + 32) as char) || (IsUpper(d) && c == (d as int + 32) as char)
  }

  /** casecmp? holds exactly of strings that agree letter by letter up to case. */
  lemma CaseEqualMeansSameUpToCase(a: string, b: string)
    ensures CaseEqual(a, b) <==> |a| == |b| && forall i :: 0 <= i < |a| ==> SameUpToCase(a[i], b[i])
  {
    if |a| == |b| {
      forall i | 0 <= i < |a| ensures Fold(a[i]) == Fold(b[i]) <==> SameUpToCase(a[i], b[i]) {
        FoldSame(a[i], b[i]);
      }
    }
  }

  lemma FoldSame(c: char, d: char)
    ensures Fold(c) == Fold(d) <==> SameUpToCase(c, d)
  {
  }

  /** The competitors of the series' competitions. */
  function ScopedCompetitors(store: Store, series: Series): seq<Competitor> {
    Filter(store.competitors, (c: Competitor) => c.event in series.competitions)
  }

  /** The round ids of the series' competitions. */
  function SeriesRoundIds(store: Store, series: Series): set<nat> {
    set r | r in ScopedRounds(store, series) :: r.id
  }

  /** The results scored in a round of the series' competitions. */
  function ScopedResults(store: Store, series: Series): seq<Result> {
    var ids := SeriesRoundIds(store, series);
    Filter(store.results, (r: Result) => r.roundId in ids)
  }

  /** The competitors whose section name equals `name` up to case. */
  function SelectCompetitors(competitors: seq<Competitor>, name: string): seq<Competitor> {
    Filter(competitors, (c: Competitor) => CaseEqual(c.sectionName, name))
  }

  function IdsOf(competitors: seq<Competitor>): set<nat> {
    set c | c in competitors :: c.id
  }

  /** The results of some competitors. */
  function SelectResults(results: seq<Result>, competitors: seq<Competitor>): seq<Result> {
    var ids := IdsOf(competitors);
    Filter(results, (r: Result) => r.competitorId in ids)
  }

  /** A category's competitors (CategoryMembers states what it selects). */
  function CategoryCompetitors(store: Store, series: Series, name: string): seq<Competitor> {
    SelectCompetitors(ScopedCompetitors(store, series), name)
  }

  /** A category's results. */
  function CategoryResults(store: Store, series: Series, name: string): seq<Result> {
    SelectResults(ScopedResults(store, series), CategoryCompetitors(store, series, name))
  }

  /** A category holds exactly the series' competitors whose section name
      equals its name up to case, and exactly the series' results of those
      competitors, both in their original order. */
  lemma CategoryMembers(store: Store, series: Series, name: string)
    ensures forall c :: c in CategoryCompetitors(store, series, name) <==>
      c in store.competitors && c.event in series.competitions && CaseEqual(c.sectionName, name)
    ensures SubsequenceOf(CategoryCompetitors(store, series, name), ScopedCompetitors(store, series))
    ensures forall r :: r in CategoryResults(store, series, name) <==>
      && r in ScopedResults(store, series)
      && exists c :: c in CategoryCompetitors(store, series, name) && c.id == r.competitorId
    ensures SubsequenceOf(CategoryResults(store, series, name), ScopedResults(store, series))
  {
    var scoped := ScopedCompetitors(store, series);
    var p := (c: Competitor) => CaseEqual(c.sectionName, name);
    FilterIsSubsequence(scoped, p);
    forall c ensures c in Filter(scoped, p) <==>
      c in store.competitors && c.event in series.competitions && CaseEqual(c.sectionName, name)
    {
      FilterMember(scoped, p, c);
      FilterMember(store.competitors, (c: Competitor) => c.event in series.competitions, c);
    }
    var results := ScopedResults(store, series);
    var ids := IdsOf(Filter(scoped, p));
    var q := (r: Result) => r.competitorId in ids;
    FilterIsSubsequence(results, q);
    forall r ensures r in Filter(results, q) <==> r in results && r.competitorId in ids {
      FilterMember(results, q, r);
    }
  }

  /** Section names of different case are different categories (the query
      groups them exactly), yet each selects the competitors of both. */
  lemma CaseVariantsShareCompetitors(store: Store, series: Series, a: string, b: string)
    requires CaseEqual(a, b)
    ensures CategoryCompetitors(store, series, a) == CategoryCompetitors(store, series, b)
    ensures CategoryResults(store, series, a) == CategoryResults(store, series, b)
  {
    var scoped := ScopedCompetitors(store, series);
    FilterCongruent(scoped, (c: Competitor) => CaseEqual(c.sectionName, a), (c: Competitor) => CaseEqual(c.sectionName, b));
  }

  lemma {:induction false} FilterCongruent<T>(xs: seq<T>, p: T -> bool, q: T -> bool)
    requires forall i :: 0 <= i < |xs| ==> p(xs[i]) == q(xs[i])
    ensures Filter(xs, p) == Filter(xs, q)
    decreases |xs|
  {
    if xs != [] {
      FilterCongruent(xs[..|xs| - 1], p, q);
    }
  }

  // ---------------------------------------------------------------------
  // The scoreboard

  /** A category of the scoreboard, with its standings. */
  datatype Category<S> = Category(name: string, standings: S)

  /** The scoreboard of one series. `buildStandings` is Standings.build,
      whose scoring is not modelled: it is given the category's competitors,
      the rounds as they then are (pair and exclusion flag) and the
      category's results. `store` is the database it reads. The
      `...Memo` fields are the memoized `@rounds`, `@categories`,
      `@competitors` and `@results`. */
  class Scoreboard<S> {
    const store: Store
    const series: Series
    const settings: Settings
    const buildStandings: (seq<Competitor>, seq<RoundView>, seq<Result>) -> S
    var roundsMemo: Option<seq<Round>>
    var categoriesMemo: Option<seq<Category<S>>>
    var competitorsMemo: Option<seq<Competitor>>
    var resultsMemo: Option<seq<Result>>
    ghost var Repr: set<object>

    ghost predicate Valid()
      reads this, Repr
    {
      && (roundsMemo.Some? ==>
            && (forall i :: 0 <= i < |roundsMemo.value| ==> roundsMemo.value[i] in Repr)
            && RoundsBuilt(roundsMemo.value, RoundKeys(store, series), settings))
      && (competitorsMemo.Some? ==> competitorsMemo.value == ScopedCompetitors(store, series))
      && (resultsMemo.Some? ==> resultsMemo.value == ScopedResults(store, series))
      && (categoriesMemo.Some? ==> CategoriesBuilt(categoriesMemo.value))
    }

    /** build_category's result, given the competitors, results and rounds
        it reads: the standings of the competitors of that name's section
        up to case and of their results. */
    function CategoryOver(name: string, competitors: seq<Competitor>, results: seq<Result>, rounds: seq<RoundView>): Category<S> {
      var members := SelectCompetitors(competitors, name);
      Category(name, buildStandings(members, rounds, SelectResults(results, members)))
    }

    /** The category of one name over the series' competitors and results,
        with the rounds as the settings mark them. */
    function BuiltCategory(name: string): Category<S> {
      CategoryOver(name, ScopedCompetitors(store, series), ScopedResults(store, series),
                   PlannedViews(RoundKeys(store, series), settings))
    }

    /** The categories, as built: one per entry of the sections query. */
    ghost predicate CategoriesBuilt(cats: seq<Category<S>>) {
      var names := CategoryNames(store, series);
      && |cats| == |names|
      && forall i :: 0 <= i < |cats| ==> cats[i] == BuiltCategory(names[i])
    }

    constructor (store: Store, series: Series, settings: Settings, buildStandings: (seq<Competitor>, seq<RoundView>, seq<Result>) -> S)
      ensures Valid() && fresh(Repr)
      ensures this.store == store && this.series == series && this.settings == settings
      ensures this.buildStandings == buildStandings
      ensures roundsMemo == None && categoriesMemo == None && competitorsMemo == None && resultsMemo == None
    {
      this.store := store;
      this.series := series;
      this.settings := settings;
      this.buildStandings := buildStandings;
      roundsMemo, categoriesMemo, competitorsMemo, resultsMemo := None, None, None, None;
      Repr := {};
    }

    /** build_round: a new round of pair `k`, excluded iff its slug is in the settings. */
    method BuildRound(k: RoundKey) returns (r: Round)
      ensures fresh(r)
      ensures r.Key() == k
      ensures r.excluded == (Slug(k) in settings.excludedRounds)
    {
      r := new Round(k.discipline, k.number);
      if Slug(r.Key()) in settings.excludedRounds {
        r.MarkExcluded();
      }
    }

    /** The map over the rounds query: one new round per pair, in order. */
    method BuildRounds(keys: seq<RoundKey>) returns (rs: seq<Round>)
      ensures forall j :: 0 <= j < |rs| ==> fresh(rs[j])
      ensures RoundsBuilt(rs, keys, settings)
    {
      rs := [];
      var i := 0;
      while i < |keys|
        invariant 0 <= i <= |keys|
        invariant |rs| == i
        invariant forall j :: 0 <= j < i ==> fresh(rs[j])
        invariant forall j :: 0 <= j < i ==> rs[j].Key() == keys[j]
        invariant forall j :: 0 <= j < i ==> rs[j].excluded == (Slug(keys[j]) in settings.excludedRounds)
      {
        var r := BuildRound(keys[i]);
        rs := rs + [r];
        i := i + 1;
      }
    }

    /** rounds: computed on the first call, then returned unchanged. */
    method Rounds() returns (rs: seq<Round>)
      requires Valid()
      modifies this
      ensures Valid() && fresh(Repr - old(Repr))
      ensures roundsMemo == Some(rs)
      ensures RoundsBuilt(rs, RoundKeys(store, series), settings)
      ensures old(roundsMemo).Some? ==> rs == old(roundsMemo).value && Repr == old(Repr)
      ensures categoriesMemo == old(categoriesMemo)
      ensures competitorsMemo == old(competitorsMemo) && resultsMemo == old(resultsMemo)
    {
      if roundsMemo.Some? {
        return roundsMemo.value;
      }
      var keys := RoundKeys(store, series);
      rs := BuildRounds(keys);
      assert RoundsBuilt(rs, keys, settings);
      Repr := Repr + set j | 0 <= j < |rs| :: rs[j];
      roundsMemo := Some(rs);
      assert RoundsBuilt(rs, keys, settings);
    }

    /** competitors: the competitors of the series' competitions, memoized. */
    method Competitors() returns (cs: seq<Competitor>)
      requires Valid()
      modifies this
      ensures Valid() && Repr == old(Repr)
      ensures cs == ScopedCompetitors(store, series) && competitorsMemo == Some(cs)
      ensures old(competitorsMemo).Some? ==> cs == old(competitorsMemo).value
      ensures roundsMemo == old(roundsMemo) && categoriesMemo == old(categoriesMemo) && resultsMemo == old(resultsMemo)
    {
      if competitorsMemo.None? {
        competitorsMemo := Some(ScopedCompetitors(store, series));
      }
      cs := competitorsMemo.value;
    }

    /** results: the results of the series' rounds, memoized. */
    method Results() returns (rs: seq<Result>)
      requires Valid()
      modifies this
      ensures Valid() && Repr == old(Repr)
      ensures rs == ScopedResults(store, series) && resultsMemo == Some(rs)
      ensures old(resultsMemo).Some? ==> rs == old(resultsMemo).value
      ensures roundsMemo == old(roundsMemo) && categoriesMemo == old(categoriesMemo) && competitorsMemo == old(competitorsMemo)
    {
      if resultsMemo.None? {
        resultsMemo := Some(ScopedResults(store, series));
      }
      rs := resultsMemo.value;
    }

    /** What build_category reads: the memoized competitors and results, and
        the memoized rounds as they then are. */
    method Inputs() returns (competitors: seq<Competitor>, results: seq<Result>, views: seq<RoundView>)
      requires Valid()
      modifies this
      ensures Valid() && fresh(Repr - old(Repr))
      ensures competitors == ScopedCompetitors(store, series) && competitorsMemo == Some(competitors)
      ensures results == ScopedResults(store, series) && resultsMemo == Some(results)
      ensures roundsMemo.Some? && views == Views(roundsMemo.value)
      ensures views == PlannedViews(RoundKeys(store, series), settings)
      ensures old(roundsMemo).Some? ==> roundsMemo == old(roundsMemo) && Repr == old(Repr)
      ensures categoriesMemo == old(categoriesMemo)
    {
      competitors := Competitors();
      results := Results();
      var rounds := Rounds();
      ViewsOfBuilt(rounds, RoundKeys(store, series), settings);
      views := Views(rounds);
    }

    /** build_category: filters the competitors by section name up to case and
        the results by competitor, and builds the standings over the rounds. */
    method BuildCategory(name: string) returns (c: Category<S>)
      requires Valid()
      modifies this
      ensures Valid() && fresh(Repr - old(Repr))
      ensures roundsMemo.Some? && (old(roundsMemo).Some? ==> roundsMemo == old(roundsMemo) && Repr == old(Repr))
      ensures competitorsMemo == Some(ScopedCompetitors(store, series)) && resultsMemo == Some(ScopedResults(store, series))
      ensures c == BuiltCategory(name)
      ensures categoriesMemo == old(categoriesMemo)
    {
      var competitors, results, views := Inputs();
      c := CategoryOver(name, competitors, results, views);
    }

    /** The map over the sections query: one built category per entry, in
        its order. With no entry, build_category never runs, so nothing is read. */
    method BuildCategories() returns (cats: seq<Category<S>>)
      requires Valid()
      modifies this
      ensures Valid() && fresh(Repr - old(Repr))
      ensures CategoriesBuilt(cats)
      ensures categoriesMemo == old(categoriesMemo)
      ensures old(roundsMemo).Some? ==> roundsMemo == old(roundsMemo) && Repr == old(Repr)
      ensures CategoryNames(store, series) != [] ==>
        && roundsMemo.Some?
        && competitorsMemo == Some(ScopedCompetitors(store, series))
        && resultsMemo == Some(ScopedResults(store, series))
      ensures CategoryNames(store, series) == [] ==>
        && roundsMemo == old(roundsMemo) && Repr == old(Repr)
        && competitorsMemo == old(competitorsMemo) && resultsMemo == old(resultsMemo)
    {
      var names := CategoryNames(store, series);
      if names == [] {
        cats := [];
      } else {
        var competitors, results, views := Inputs();
        cats := seq(|names|, i requires 0 <= i < |names| => CategoryOver(names[i], competitors, results, views));
      }
    }

    /** categories: one category per entry of the sections query, in its
        order; computed on the first call, then returned unchanged. */
    method Categories() returns (cats: seq<Category<S>>)
      requires Valid()
      modifies this
      ensures Valid() && fresh(Repr - old(Repr))
      ensures categoriesMemo == Some(cats)
      ensures CategoriesBuilt(cats)
      ensures old(categoriesMemo).Some? ==> cats == old(categoriesMemo).value
      ensures old(roundsMemo).Some? ==> roundsMemo == old(roundsMemo) && Repr == old(Repr)
      ensures old(categoriesMemo).None? && CategoryNames(store, series) != [] ==>
        && roundsMemo.Some?
        && competitorsMemo == Some(ScopedCompetitors(store, series))
        && resultsMemo == Some(ScopedResults(store, series))
      ensures old(categoriesMemo).Some? || CategoryNames(store, series) == [] ==>
        && roundsMemo == old(roundsMemo) && Repr == old(Repr)
        && competitorsMemo == old(competitorsMemo) && resultsMemo == old(resultsMemo)
    {
      if categoriesMemo.Some? {
        return categoriesMemo.value;
      }
      cats := BuildCategories();
      categoriesMemo := Some(cats);
    }

    /** rounds_by_discipline: the rounds grouped by discipline. */
    method RoundsByDiscipline() returns (groups: seq<Group<Discipline, Round>>)
      requires Valid()
      modifies this
      ensures Valid() && fresh(Repr - old(Repr))
      ensures roundsMemo.Some? && groups == GroupBy(roundsMemo.value, DisciplineOf)
      ensures old(roundsMemo).Some? ==> roundsMemo == old(roundsMemo) && Repr == old(Repr)
      ensures categoriesMemo == old(categoriesMemo)
      ensures competitorsMemo == old(competitorsMemo) && resultsMemo == old(resultsMemo)
    {
      var rs := Rounds();
      groups := GroupBy(rs, DisciplineOf);
    }

    /** columns_count: two columns per round, one per discipline, and four. */
    method ColumnsCount() returns (n: nat)
      requires Valid()
      modifies this
      ensures Valid() && fresh(Repr - old(Repr))
      ensures roundsMemo.Some?
      ensures n == 2 * |RoundKeys(store, series)| + |KeySet(roundsMemo.value, DisciplineOf)| + 4
      ensures RoundKeys(store, series) == [] ==> n == 4
      ensures old(roundsMemo).Some? ==> roundsMemo == old(roundsMemo) && Repr == old(Repr)
      ensures categoriesMemo == old(categoriesMemo)
      ensures competitorsMemo == old(competitorsMemo) && resultsMemo == old(resultsMemo)
    {
      var groups := RoundsByDiscipline();
      n := |roundsMemo.value| * 2 + |groups| + 4;
      assert n == ColumnsFor(roundsMemo.value);
    }
  }
}
