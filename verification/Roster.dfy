/** A roster as workbench facts: turning it into facts, reading it back, and finding sources that disagree. */
module Roster {
  import opened Wrappers
  import opened Lists

  datatype Entry = Entry(id: string, displayName: string, divisionId: string, memberIds: seq<string>, seed: Option<int>)

  datatype Value = Text(text: string) | Texts(texts: seq<string>) | Number(number: int) | Null | Other(other: string)

  datatype Fact = Fact(id: string, path: string, value: Value)

  datatype Field = DisplayName | DivisionId | MemberIds | Seed

  function PathName(f: Field): string {
    match f
    case DisplayName => "displayName"
    case DivisionId => "divisionId"
    case MemberIds => "memberIds"
    case Seed => "seed"
  }

  function IdName(f: Field): string {
    match f
    case DisplayName => "display-name"
    case DivisionId => "division"
    case MemberIds => "member-ids"
    case Seed => "seed"
  }

  function EntrantPath(id: string, f: Field): string {
    "/entrants/" + id + "/" + PathName(f)
  }

  function EntrantFactId(id: string, f: Field): string {
    "entrant." + id + "." + IdName(f)
  }

  function FieldValue(e: Entry, f: Field): Value {
    match f
    case DisplayName => Text(e.displayName)
    case DivisionId => Text(e.divisionId)
    case MemberIds => Texts(e.memberIds)
    case Seed => if e.seed.Some? then Number(e.seed.value) else Null
  }

  function FieldFact(e: Entry, f: Field): Fact {
    Fact(EntrantFactId(e.id, f), EntrantPath(e.id, f), FieldValue(e, f))
  }

  function EntryFacts(e: Entry): seq<Fact> {
    [FieldFact(e, DisplayName), FieldFact(e, DivisionId), FieldFact(e, MemberIds), FieldFact(e, Seed)]
  }

  function RosterFacts(roster: seq<Entry>): seq<Fact> {
    if roster == [] then [] else RosterFacts(roster[..|roster| - 1]) + EntryFacts(roster[|roster| - 1])
  }

  function Ids(roster: seq<Entry>): seq<string> {
    Map(roster, (e: Entry) => e.id)
  }

  const TOTAL: string := "entrants.total"

  const ORDER: string := "entrants.order"

  function Heads(roster: seq<Entry>): seq<Fact> {
    [Fact(TOTAL, "/participants/count", Number(|roster|)), Fact(ORDER, "/participants/entrantOrder", Texts(Ids(roster)))]
  }

  /** The facts that state a roster: its size, its order, and four of each entrant. */
  function AnchorFacts(roster: seq<Entry>): seq<Fact> {
    Heads(roster) + RosterFacts(roster)
  }

  // ---------------------------------------------------------------- reading a roster back

  predicate EndsWith(text: string, suffix: string) {
    |suffix| <= |text| && text[|text| - |suffix|..] == suffix
  }

  predicate Slashless(id: string) {
    id != "" && '/' !in id
  }

  /** What lies between "/entrants/" and the field name, when the path has that form. */
  function Middle(path: string, f: Field): Option<string> {
    var suffix := "/" + PathName(f);
    if |path| >= 10 + |suffix| && path[..10] == "/entrants/" && EndsWith(path, suffix) && Slashless(path[10..|path| - |suffix|])
    then Some(path[10..|path| - |suffix|]) else None
  }

  function ParsePath(path: string): Option<(string, Field)> {
    if Middle(path, DisplayName).Some? then Some((Middle(path, DisplayName).value, DisplayName))
    else if Middle(path, DivisionId).Some? then Some((Middle(path, DivisionId).value, DivisionId))
    else if Middle(path, MemberIds).Some? then Some((Middle(path, MemberIds).value, MemberIds))
    else if Middle(path, Seed).Some? then Some((Middle(path, Seed).value, Seed))
    else None
  }

  type Table = map<(string, Field), Value>

  /** The last value given for each field of each entrant. */
  function Fields(facts: seq<Fact>): Table {
    if facts == [] then map[]
    else
      var before, parsed := Fields(facts[..|facts| - 1]), ParsePath(facts[|facts| - 1].path);
      if parsed.Some? then before[parsed.value := facts[|facts| - 1].value] else before
  }

  function FindFact(facts: seq<Fact>, id: string): Option<Value> {
    if facts == [] then None else if facts[0].id == id then Some(facts[0].value) else FindFact(facts[1..], id)
  }

  const MAX_SAFE_INTEGER: int := 9_007_199_254_740_991

  predicate SafeInteger(n: int) {
    -MAX_SAFE_INTEGER <= n <= MAX_SAFE_INTEGER
  }

  function Get(fields: Table, id: string, f: Field): Option<Value> {
    if (id, f) in fields then Some(fields[(id, f)]) else None
  }

  function ReadEntry(fields: Table, id: string): Option<Entry> {
    var name, division := Get(fields, id, DisplayName), Get(fields, id, DivisionId);
    var members, seed := Get(fields, id, MemberIds), Get(fields, id, Seed);
    if name.None? || !name.value.Text? || division.None? || !division.value.Text? || members.None? || !members.value.Texts? then None
    else if seed.None? || seed.value.Null? then Some(Entry(id, name.value.text, division.value.text, members.value.texts, None))
    else if seed.value.Number? && SafeInteger(seed.value.number) then
      Some(Entry(id, name.value.text, division.value.text, members.value.texts, Some(seed.value.number)))
    else None
  }

  function ReadAll(fields: Table, ids: seq<string>): Option<seq<Entry>> {
    if ids == [] then Some([])
    else
      var front, last := ReadAll(fields, ids[..|ids| - 1]), ReadEntry(fields, ids[|ids| - 1]);
      if front.None? || last.None? then None else Some(front.value + [last.value])
  }

  function RosterFrom(facts: seq<Fact>): Option<seq<Entry>> {
    var order, total := FindFact(facts, ORDER), FindFact(facts, TOTAL);
    if order.None? || !order.value.Texts? || total.None? || !total.value.Number? || !SafeInteger(total.value.number)
       || total.value.number != |order.value.texts| || |Values(order.value.texts)| != |order.value.texts| then None
    else ReadAll(Fields(facts), order.value.texts)
  }

  method RosterFromWorkbench(facts: seq<Fact>) returns (r: Option<seq<Entry>>)
    ensures r == RosterFrom(facts)
  {
    var order, total := FindFact(facts, ORDER), FindFact(facts, TOTAL);
    if order.None? || !order.value.Texts? || total.None? || !total.value.Number? || !SafeInteger(total.value.number)
       || total.value.number != |order.value.texts| || |Values(order.value.texts)| != |order.value.texts| { return None; }
    var fields: Table := map[];
    for i := 0 to |facts|
      invariant fields == Fields(facts[..i])
    {
      assert facts[..i + 1][..i] == facts[..i];
      var parsed := ParsePath(facts[i].path);
      if parsed.Some? { fields := fields[parsed.value := facts[i].value]; }
    }
    assert facts[..|facts|] == facts;
    var roster, ids := [], order.value.texts;
    for i := 0 to |ids|
      invariant ReadAll(fields, ids[..i]) == Some(roster)
    {
      assert ids[..i + 1][..i] == ids[..i];
      var entry := ReadEntry(fields, ids[i]);
      if entry.None? {
        ReadAllStops(fields, ids, i + 1);
        return None;
      }
      roster := roster + [entry.value];
    }
    assert ids[..|ids|] == ids;
    r := Some(roster);
  }

  lemma {:induction false} ReadAllStops(fields: Table, ids: seq<string>, k: nat)
    requires k <= |ids| && ReadAll(fields, ids[..k]).None?
    ensures ReadAll(fields, ids).None?
  {
    if k < |ids| {
      assert ids[..|ids| - 1][..k] == ids[..k];
      ReadAllStops(fields, ids[..|ids| - 1], k);
    } else {
      assert ids[..k] == ids;
    }
  }

  // ---------------------------------------------------------------- the round trip

  lemma NameHasNoSlash(f: Field)
    ensures '/' !in PathName(f) && PathName(f) != ""
    ensures forall g :: |PathName(f)| == |PathName(g)| ==> f == g
  {
  }

  lemma PathShape(id: string, f: Field)
    ensures var path, name := EntrantPath(id, f), PathName(f);
            && |path| == 11 + |id| + |name| && path[..10] == "/entrants/" && path[10..10 + |id|] == id
            && path[10 + |id|] == '/' && path[11 + |id|..] == name
  {
    var path := EntrantPath(id, f);
    assert path == "/entrants/" + (id + ("/" + PathName(f)));
  }

  lemma OwnMiddle(id: string, f: Field)
    requires Slashless(id)
    ensures Middle(EntrantPath(id, f), f) == Some(id)
  {
    PathShape(id, f);
    var path, suffix := EntrantPath(id, f), "/" + PathName(f);
    assert path[10 + |id|..] == suffix;
    assert path[10..|path| - |suffix|] == id;
  }

  lemma OtherMiddle(id: string, f: Field, g: Field)
    requires Slashless(id) && f != g
    ensures Middle(EntrantPath(id, f), g).None?
  {
    PathShape(id, f);
    NameHasNoSlash(f);
    NameHasNoSlash(g);
    var path, name, suffix := EntrantPath(id, f), PathName(f), "/" + PathName(g);
    if |path| >= |suffix| {
      var at := |path| - |suffix|;
      assert path[at..][0] == path[at];
      if at > 10 + |id| {
        assert path[at] == name[at - (11 + |id|)];
      } else if 10 <= at {
        assert path[at] == id[at - 10] by { assert path[10..10 + |id|][at - 10] == path[at]; }
      }
    }
  }

  /** A path made for an entrant's field is read as that field. */
  lemma PathReadsBack(id: string, f: Field)
    requires Slashless(id)
    ensures ParsePath(EntrantPath(id, f)) == Some((id, f))
  {
    OwnMiddle(id, f);
    if f != DisplayName { OtherMiddle(id, f, DisplayName); }
    if f != DivisionId { OtherMiddle(id, f, DivisionId); }
    if f != MemberIds { OtherMiddle(id, f, MemberIds); }
    if f != Seed { OtherMiddle(id, f, Seed); }
  }

  lemma FieldsSnoc(facts: seq<Fact>, last: Fact)
    ensures Fields(facts + [last]) == if ParsePath(last.path).Some? then Fields(facts)[ParsePath(last.path).value := last.value]
                                      else Fields(facts)
  {
    assert (facts + [last])[..|facts|] == facts;
  }

  function With(fields: Table, fact: Fact): Table {
    if ParsePath(fact.path).Some? then fields[ParsePath(fact.path).value := fact.value] else fields
  }

  lemma FieldsOfFour(facts: seq<Fact>, a: Fact, b: Fact, c: Fact, d: Fact)
    ensures Fields(facts + [a, b, c, d]) == With(With(With(With(Fields(facts), a), b), c), d)
  {
    FieldsSnoc(facts, a);
    FieldsSnoc(facts + [a], b);
    FieldsSnoc(facts + [a] + [b], c);
    FieldsSnoc(facts + [a] + [b] + [c], d);
    assert facts + [a, b, c, d] == facts + [a] + [b] + [c] + [d];
  }

  lemma WithField(fields: Table, e: Entry, f: Field)
    requires Slashless(e.id)
    ensures With(fields, FieldFact(e, f)) == fields[(e.id, f) := FieldValue(e, f)]
  {
    PathReadsBack(e.id, f);
  }

  lemma EntryFieldsRead(facts: seq<Fact>, e: Entry, id: string, f: Field)
    requires Slashless(e.id)
    ensures Get(Fields(facts + EntryFacts(e)), id, f) == if id == e.id then Some(FieldValue(e, f)) else Get(Fields(facts), id, f)
  {
    FieldsOfFour(facts, FieldFact(e, DisplayName), FieldFact(e, DivisionId), FieldFact(e, MemberIds), FieldFact(e, Seed));
    var one := Fields(facts)[(e.id, DisplayName) := FieldValue(e, DisplayName)];
    WithField(Fields(facts), e, DisplayName);
    var two := one[(e.id, DivisionId) := FieldValue(e, DivisionId)];
    WithField(one, e, DivisionId);
    var three := two[(e.id, MemberIds) := FieldValue(e, MemberIds)];
    WithField(two, e, MemberIds);
    WithField(three, e, Seed);
  }

  predicate Readable(e: Entry) {
    Slashless(e.id) && (e.seed.Some? ==> SafeInteger(e.seed.value))
  }

  lemma FrontOfRoster(roster: seq<Entry>, k: nat)
    requires k < |roster| && Distinct(Ids(roster))
    ensures Distinct(Ids(roster[..|roster| - 1]))
    ensures k < |roster| - 1 ==> roster[k].id != roster[|roster| - 1].id
  {
    var front := roster[..|roster| - 1];
    forall i, j | 0 <= i < j < |front| ensures Ids(front)[i] != Ids(front)[j] {
      assert Ids(roster)[i] != Ids(roster)[j];
    }
    if k < |front| { assert Ids(roster)[k] != Ids(roster)[|front|]; }
  }

  /** Reading the facts of a roster with one more entrant. */
  lemma OneEntryMore(facts: seq<Fact>, front: seq<Entry>, last: Entry, id: string, f: Field)
    requires Slashless(last.id)
    ensures Get(Fields(facts + RosterFacts(front + [last])), id, f)
            == if id == last.id then Some(FieldValue(last, f)) else Get(Fields(facts + RosterFacts(front)), id, f)
  {
    assert (front + [last])[..|front|] == front;
    AppendedTwice(facts, RosterFacts(front), EntryFacts(last));
    EntryFieldsRead(facts + RosterFacts(front), last, id, f);
  }

  lemma {:induction false} RosterFieldsRead(facts: seq<Fact>, roster: seq<Entry>, k: nat, f: Field)
    requires k < |roster| && Distinct(Ids(roster)) && forall e | e in roster :: Slashless(e.id)
    ensures Get(Fields(facts + RosterFacts(roster)), roster[k].id, f) == Some(FieldValue(roster[k], f))
  {
    var front, last := roster[..|roster| - 1], roster[|roster| - 1];
    assert roster == front + [last];
    FrontOfRoster(roster, k);
    OneEntryMore(facts, front, last, roster[k].id, f);
    if k < |front| { RosterFieldsRead(facts, front, k, f); }
  }

  lemma {:induction false} ReadsRoster(fields: Table, roster: seq<Entry>)
    requires forall k, f | 0 <= k < |roster| :: Get(fields, roster[k].id, f) == Some(FieldValue(roster[k], f))
    requires forall e | e in roster :: Readable(e)
    ensures ReadAll(fields, Ids(roster)) == Some(roster)
  {
    if roster != [] {
      var front, last := roster[..|roster| - 1], roster[|roster| - 1];
      ReadsRoster(fields, front);
      assert Ids(roster)[..|front|] == Ids(front);
      assert roster[|front|] == last && Readable(last);
      assert Get(fields, last.id, DisplayName) == Some(FieldValue(last, DisplayName));
      assert Get(fields, last.id, DivisionId) == Some(FieldValue(last, DivisionId));
      assert Get(fields, last.id, MemberIds) == Some(FieldValue(last, MemberIds));
      assert Get(fields, last.id, Seed) == Some(FieldValue(last, Seed));
      assert ReadEntry(fields, last.id) == Some(last);
      assert roster == front + [last];
    }
  }

  lemma {:induction false} FindAfter(facts: seq<Fact>, more: seq<Fact>, id: string)
    requires forall fact | fact in facts :: fact.id != id
    ensures FindFact(facts + more, id) == FindFact(more, id)
    decreases |facts|
  {
    if facts == [] {
      assert facts + more == more;
    } else {
      assert (facts + more)[1..] == facts[1..] + more;
      assert facts[0] in facts;
      FindAfter(facts[1..], more, id);
    }
  }

  /** Facts of other matters, which neither state a roster nor describe an entrant. */
  ghost predicate OtherMatters(facts: seq<Fact>) {
    forall fact | fact in facts :: fact.id != TOTAL && fact.id != ORDER
  }

  lemma HeadsAreFound(others: seq<Fact>, roster: seq<Entry>)
    requires OtherMatters(others)
    ensures FindFact(others + AnchorFacts(roster), TOTAL) == Some(Number(|roster|))
    ensures FindFact(others + AnchorFacts(roster), ORDER) == Some(Texts(Ids(roster)))
  {
    var anchor := AnchorFacts(roster);
    FindAfter(others, anchor, TOTAL);
    FindAfter(others, anchor, ORDER);
    assert TOTAL[9] != ORDER[9];
    assert anchor[0] == Heads(roster)[0] && anchor[1..][0] == Heads(roster)[1];
  }

  lemma AllFieldsFound(others: seq<Fact>, roster: seq<Entry>)
    requires Distinct(Ids(roster)) && forall e | e in roster :: Readable(e)
    ensures ReadAll(Fields(others + AnchorFacts(roster)), Ids(roster)) == Some(roster)
  {
    var facts := others + AnchorFacts(roster);
    AppendedTwice(others, Heads(roster), RosterFacts(roster));
    forall k, f | 0 <= k < |roster| ensures Get(Fields(facts), roster[k].id, f) == Some(FieldValue(roster[k], f)) {
      RosterFieldsRead(others + Heads(roster), roster, k, f);
    }
    ReadsRoster(Fields(facts), roster);
  }

  /** Turning a roster into facts, after any facts of other matters, and reading it back gives the same roster. */
  lemma RosterRoundTrip(others: seq<Fact>, roster: seq<Entry>)
    requires OtherMatters(others) && Distinct(Ids(roster)) && (forall e | e in roster :: Readable(e)) && SafeInteger(|roster|)
    ensures RosterFrom(others + AnchorFacts(roster)) == Some(roster)
  {
    HeadsAreFound(others, roster);
    AllFieldsFound(others, roster);
    assert Values(Ids(roster)) == Elements(Ids(roster));
    DistinctCount(Ids(roster));
  }

  // ---------------------------------------------------------------- sources that disagree

  /** The values under each fact identity, the last one where an identity repeats. */
  function ById(facts: seq<Fact>): map<string, Value> {
    if facts == [] then map[] else ById(facts[..|facts| - 1])[facts[|facts| - 1].id := facts[|facts| - 1].value]
  }

  predicate Matches(incoming: map<string, Value>, current: Fact) {
    current.id in incoming && incoming[current.id] == current.value
  }

  function Disagreements(anchor: seq<Fact>, incoming: map<string, Value>): seq<string> {
    if anchor == [] then []
    else
      Disagreements(anchor[..|anchor| - 1], incoming)
      + if Matches(incoming, anchor[|anchor| - 1]) then [] else [anchor[|anchor| - 1].id]
  }

  function Strangers(incoming: seq<Fact>, known: set<string>): seq<string> {
    if incoming == [] then []
    else
      Strangers(incoming[..|incoming| - 1], known)
      + if incoming[|incoming| - 1].id in known then [] else [incoming[|incoming| - 1].id]
  }

  /** The fact identities on which one roster source conflicts with the anchor. */
  function Conflicts(anchor: seq<Fact>, incoming: seq<Fact>, known: set<string>): seq<string> {
    Disagreements(anchor, ById(incoming)) + Strangers(incoming, known)
  }

  method FindConflicts(anchor: seq<Fact>, incoming: seq<Fact>, known: set<string>) returns (conflicts: seq<string>)
    ensures conflicts == Conflicts(anchor, incoming, known)
  {
    var byId: map<string, Value> := map[];
    for i := 0 to |incoming|
      invariant byId == ById(incoming[..i])
    {
      assert incoming[..i + 1][..i] == incoming[..i];
      byId := byId[incoming[i].id := incoming[i].value];
    }
    assert incoming[..|incoming|] == incoming;
    conflicts := [];
    for i := 0 to |anchor|
      invariant conflicts == Disagreements(anchor[..i], byId)
    {
      assert anchor[..i + 1][..i] == anchor[..i];
      if !Matches(byId, anchor[i]) { conflicts := conflicts + [anchor[i].id]; }
    }
    assert anchor[..|anchor|] == anchor;
    ghost var disagreements := conflicts;
    for i := 0 to |incoming|
      invariant conflicts == disagreements + Strangers(incoming[..i], known)
    {
      assert incoming[..i + 1][..i] == incoming[..i];
      if incoming[i].id !in known { conflicts := conflicts + [incoming[i].id]; }
    }
  }

  lemma {:induction false} NoDisagreements(anchor: seq<Fact>, incoming: map<string, Value>)
    ensures Disagreements(anchor, incoming) == [] <==> forall fact | fact in anchor :: Matches(incoming, fact)
  {
    if anchor != [] {
      var front, last := anchor[..|anchor| - 1], anchor[|anchor| - 1];
      NoDisagreements(front, incoming);
      assert forall fact :: fact in anchor <==> fact in front || fact == last;
    }
  }

  lemma {:induction false} NoStrangers(incoming: seq<Fact>, known: set<string>)
    requires forall fact | fact in incoming :: fact.id in known
    ensures Strangers(incoming, known) == []
  {
    if incoming != [] {
      assert incoming[|incoming| - 1] in incoming;
      NoStrangers(incoming[..|incoming| - 1], known);
    }
  }

  lemma IdShape(id: string, f: Field)
    ensures var text, name := EntrantFactId(id, f), IdName(f);
            && |text| == 9 + |id| + |name| && text[7] == '.' && text[8..8 + |id|] == id
            && text[8 + |id|] == '.' && text[9 + |id|..] == name && forall i | 9 + |id| <= i < |text| :: text[i] != '.'
  {
    var text, name := EntrantFactId(id, f), IdName(f);
    assert text == "entrant." + (id + ("." + name));
    assert '.' !in name;
    forall i | 9 + |id| <= i < |text| ensures text[i] != '.' { assert text[i] == name[i - (9 + |id|)]; }
  }

  /** Different fields, or different entrants, never share a fact identity. */
  lemma FactIdsDiffer(id: string, f: Field, other: string, g: Field)
    requires EntrantFactId(id, f) == EntrantFactId(other, g)
    ensures id == other && f == g
  {
    IdShape(id, f);
    IdShape(other, g);
    assert |id| == |other|;
    assert |IdName(f)| == |IdName(g)|;
  }

  lemma ByIdSnoc(facts: seq<Fact>, last: Fact)
    ensures ById(facts + [last]) == ById(facts)[last.id := last.value]
  {
    assert (facts + [last])[..|facts|] == facts;
  }

  lemma ByIdOfFour(facts: seq<Fact>, a: Fact, b: Fact, c: Fact, d: Fact)
    ensures ById(facts + [a, b, c, d]) == ById(facts)[a.id := a.value][b.id := b.value][c.id := c.value][d.id := d.value]
  {
    ByIdSnoc(facts, a);
    ByIdSnoc(facts + [a], b);
    ByIdSnoc(facts + [a] + [b], c);
    ByIdSnoc(facts + [a] + [b] + [c], d);
    assert facts + [a, b, c, d] == facts + [a] + [b] + [c] + [d];
  }

  /** A fact of an entrant is found by its identity, and facts of others are not disturbed. */
  lemma EntryFound(facts: seq<Fact>, e: Entry, id: string, f: Field)
    ensures var byId := ById(facts + EntryFacts(e));
            if id == e.id then Matches(byId, FieldFact(e, f))
            else forall v :: Matches(ById(facts), Fact(EntrantFactId(id, f), "", v)) <==> Matches(byId, Fact(EntrantFactId(id, f), "", v))
  {
    ByIdOfFour(facts, FieldFact(e, DisplayName), FieldFact(e, DivisionId), FieldFact(e, MemberIds), FieldFact(e, Seed));
    forall g: Field | EntrantFactId(id, f) == EntrantFactId(e.id, g) ensures id == e.id && f == g {
      FactIdsDiffer(id, f, e.id, g);
    }
  }

  lemma {:induction false} RosterFound(facts: seq<Fact>, roster: seq<Entry>, k: nat, f: Field)
    requires k < |roster| && Distinct(Ids(roster))
    ensures Matches(ById(facts + RosterFacts(roster)), FieldFact(roster[k], f))
  {
    var front, last := roster[..|roster| - 1], roster[|roster| - 1];
    AppendedTwice(facts, RosterFacts(front), EntryFacts(last));
    EntryFound(facts + RosterFacts(front), last, roster[k].id, f);
    FrontOfRoster(roster, k);
    if k < |front| {
      RosterFound(facts, front, k, f);
      assert Matches(ById(facts + RosterFacts(front)), Fact(EntrantFactId(roster[k].id, f), "", FieldValue(roster[k], f)));
    }
  }

  lemma OrderIsNoEntrant(id: string, f: Field)
    ensures EntrantFactId(id, f) != ORDER && EntrantFactId(id, f) != TOTAL
  {
    IdShape(id, f);
    assert ORDER[7] == 's' && TOTAL[7] == 's';
  }

  lemma {:induction false} HeadsFound(facts: seq<Fact>, roster: seq<Entry>)
    ensures ORDER in ById(facts) ==> ORDER in ById(facts + RosterFacts(roster))
                                     && ById(facts + RosterFacts(roster))[ORDER] == ById(facts)[ORDER]
    ensures TOTAL in ById(facts) ==> TOTAL in ById(facts + RosterFacts(roster))
                                     && ById(facts + RosterFacts(roster))[TOTAL] == ById(facts)[TOTAL]
  {
    if roster == [] {
      assert facts + RosterFacts(roster) == facts;
    } else {
      var front, last := roster[..|roster| - 1], roster[|roster| - 1];
      HeadsFound(facts, front);
      AppendedTwice(facts, RosterFacts(front), EntryFacts(last));
      ByIdOfFour(facts + RosterFacts(front), FieldFact(last, DisplayName), FieldFact(last, DivisionId), FieldFact(last, MemberIds),
                 FieldFact(last, Seed));
      OrderIsNoEntrant(last.id, DisplayName);
      OrderIsNoEntrant(last.id, DivisionId);
      OrderIsNoEntrant(last.id, MemberIds);
      OrderIsNoEntrant(last.id, Seed);
    }
  }

  lemma AnchorHeads(roster: seq<Entry>)
    ensures var byId := ById(AnchorFacts(roster));
            && ORDER in byId && byId[ORDER] == Texts(Ids(roster)) && TOTAL in byId && byId[TOTAL] == Number(|roster|)
  {
    ByIdOfTwo(Heads(roster)[0], Heads(roster)[1]);
    assert TOTAL[9] != ORDER[9];
    assert Heads(roster) == [Heads(roster)[0], Heads(roster)[1]];
    HeadsFound(Heads(roster), roster);
  }

  lemma ByIdOfTwo(a: Fact, b: Fact)
    ensures ById([a, b]) == map[a.id := a.value][b.id := b.value]
  {
    var none: seq<Fact> := [];
    ByIdSnoc(none, a);
    ByIdSnoc([a], b);
    assert none + [a] == [a] && [a] + [b] == [a, b];
  }

  lemma {:induction false} EntryFactsListed(roster: seq<Entry>, k: nat, f: Field)
    requires k < |roster|
    ensures FieldFact(roster[k], f) in RosterFacts(roster)
  {
    var front, last := roster[..|roster| - 1], roster[|roster| - 1];
    if k < |front| {
      EntryFactsListed(front, k, f);
    } else {
      assert EntryFacts(last)[match f case DisplayName => 0 case DivisionId => 1 case MemberIds => 2 case Seed => 3] == FieldFact(last, f);
    }
  }

  lemma {:induction false} RosterFactsAre(roster: seq<Entry>, fact: Fact) returns (k: nat, f: Field)
    requires fact in RosterFacts(roster)
    ensures k < |roster| && fact == FieldFact(roster[k], f)
  {
    var front, last := roster[..|roster| - 1], roster[|roster| - 1];
    if fact in RosterFacts(front) {
      k, f := RosterFactsAre(front, fact);
    } else {
      k := |front|;
      f :| fact == FieldFact(last, f);
    }
  }

  lemma SameEntry(a: Entry, b: Entry)
    requires a.id == b.id && forall f :: FieldValue(a, f) == FieldValue(b, f)
    ensures a == b
  {
    assert FieldValue(a, DisplayName) == FieldValue(b, DisplayName) && FieldValue(a, DivisionId) == FieldValue(b, DivisionId);
    assert FieldValue(a, MemberIds) == FieldValue(b, MemberIds) && FieldValue(a, Seed) == FieldValue(b, Seed);
  }

  lemma MatchingRostersAreSame(anchor: seq<Entry>, candidate: seq<Entry>)
    requires Distinct(Ids(anchor)) && forall fact | fact in AnchorFacts(anchor) :: Matches(ById(AnchorFacts(candidate)), fact)
    ensures candidate == anchor
  {
    AnchorHeads(candidate);
    var order := AnchorFacts(anchor)[1];
    assert order == Fact(ORDER, "/participants/entrantOrder", Texts(Ids(anchor))) && order in AnchorFacts(anchor);
    assert Matches(ById(AnchorFacts(candidate)), order);
    assert Ids(candidate) == Ids(anchor);
    forall k | 0 <= k < |anchor| ensures candidate[k] == anchor[k] {
      assert Ids(candidate)[k] == Ids(anchor)[k];
      forall f ensures FieldValue(anchor[k], f) == FieldValue(candidate[k], f) {
        EntryFactsListed(anchor, k, f);
        assert FieldFact(anchor[k], f) in AnchorFacts(anchor);
        RosterFound(Heads(candidate), candidate, k, f);
      }
      SameEntry(anchor[k], candidate[k]);
    }
  }

  lemma OwnFactsMatch(roster: seq<Entry>, fact: Fact)
    requires Distinct(Ids(roster)) && fact in AnchorFacts(roster)
    ensures Matches(ById(AnchorFacts(roster)), fact)
  {
    AnchorHeads(roster);
    if fact in RosterFacts(roster) {
      var k, f := RosterFactsAre(roster, fact);
      RosterFound(Heads(roster), roster, k, f);
    }
  }

  /** A roster source has no conflicts with the anchor exactly when it lists the identical roster, in the same order. */
  lemma NoConflictsIffSameRoster(anchor: seq<Entry>, candidate: seq<Entry>, known: set<string>)
    requires Distinct(Ids(anchor)) && forall fact | fact in AnchorFacts(anchor) :: fact.id in known
    ensures Conflicts(AnchorFacts(anchor), AnchorFacts(candidate), known) == [] <==> candidate == anchor
  {
    NoDisagreements(AnchorFacts(anchor), ById(AnchorFacts(candidate)));
    if candidate == anchor {
      forall fact | fact in AnchorFacts(anchor) ensures Matches(ById(AnchorFacts(candidate)), fact) { OwnFactsMatch(anchor, fact); }
      NoStrangers(AnchorFacts(candidate), known);
    } else if Conflicts(AnchorFacts(anchor), AnchorFacts(candidate), known) == [] {
      MatchingRostersAreSame(anchor, candidate);
    }
  }

  // ---------------------------------------------------------------- what a conflict names

  lemma {:induction false} ByIdHolds(facts: seq<Fact>, id: string)
    ensures id in ById(facts) <==> exists g :: g in facts && g.id == id
    ensures id in ById(facts) ==> exists g :: g in facts && g.id == id && g.value == ById(facts)[id]
  {
    if facts != [] {
      var front, last := facts[..|facts| - 1], facts[|facts| - 1];
      ByIdHolds(front, id);
      assert facts == front + [last];
    }
  }

  lemma {:induction false} DisagreementsAre(anchor: seq<Fact>, incoming: map<string, Value>, id: string)
    ensures id in Disagreements(anchor, incoming) <==> exists fact :: fact in anchor && fact.id == id && !Matches(incoming, fact)
  {
    if anchor != [] {
      var front, last := anchor[..|anchor| - 1], anchor[|anchor| - 1];
      DisagreementsAre(front, incoming, id);
      assert anchor == front + [last];
    }
  }

  lemma {:induction false} StrangersAre(incoming: seq<Fact>, known: set<string>, id: string)
    ensures id in Strangers(incoming, known) <==> id !in known && exists g :: g in incoming && g.id == id
  {
    if incoming != [] {
      var front, last := incoming[..|incoming| - 1], incoming[|incoming| - 1];
      StrangersAre(front, known, id);
      assert incoming == front + [last];
    }
  }

  /** A roster of distinct entrants says one thing under each fact identity. */
  lemma OneValueEach(roster: seq<Entry>, g: Fact, h: Fact)
    requires Distinct(Ids(roster)) && g in AnchorFacts(roster) && h in AnchorFacts(roster) && g.id == h.id
    ensures g == h
  {
    assert TOTAL[9] != ORDER[9];
    if g in RosterFacts(roster) {
      var k, f := RosterFactsAre(roster, g);
      OrderIsNoEntrant(roster[k].id, f);
      assert h in RosterFacts(roster);
      var l, q := RosterFactsAre(roster, h);
      FactIdsDiffer(roster[k].id, f, roster[l].id, q);
      assert Ids(roster)[k] == Ids(roster)[l];
    } else if h in RosterFacts(roster) {
      var l, q := RosterFactsAre(roster, h);
      OrderIsNoEntrant(roster[l].id, q);
    }
  }

  /** The conflicts name exactly the anchor's facts that the other source does not state alike, and its facts that are not known. */
  lemma ConflictsNameWhatDiffers(anchor: seq<Entry>, candidate: seq<Entry>, known: set<string>, id: string)
    requires Distinct(Ids(candidate))
    ensures id in Conflicts(AnchorFacts(anchor), AnchorFacts(candidate), known) <==>
              || (exists fact :: fact in AnchorFacts(anchor) && fact.id == id
                                 && !exists g :: g in AnchorFacts(candidate) && g.id == id && g.value == fact.value)
              || (id !in known && exists g :: g in AnchorFacts(candidate) && g.id == id)
  {
    var facts := AnchorFacts(candidate);
    ByIdHolds(facts, id);
    DisagreementsAre(AnchorFacts(anchor), ById(facts), id);
    StrangersAre(facts, known, id);
    forall g, h | g in facts && h in facts && g.id == id && h.id == id ensures g == h { OneValueEach(candidate, g, h); }
    forall fact: Fact | fact.id == id
      ensures Matches(ById(facts), fact) <==> exists g :: g in facts && g.id == id && g.value == fact.value
    {
    }
  }

  // ---------------------------------------------------------------- exactly which facts state a roster

  /** The last fact on this field of this entrant gives it this value. */
  predicate Stated(facts: seq<Fact>, id: string, f: Field, v: Value) {
    exists i :: 0 <= i < |facts| && ParsePath(facts[i].path) == Some((id, f)) && facts[i].value == v
                && forall j | i < j < |facts| :: ParsePath(facts[j].path) != Some((id, f))
  }

  predicate Unstated(facts: seq<Fact>, id: string, f: Field) {
    forall g | g in facts :: ParsePath(g.path) != Some((id, f))
  }

  /** The facts state the entrant: its name, division and members, and its seed if it has one. */
  predicate StatesEntry(facts: seq<Fact>, e: Entry) {
    && Stated(facts, e.id, DisplayName, Text(e.displayName)) && Stated(facts, e.id, DivisionId, Text(e.divisionId))
    && Stated(facts, e.id, MemberIds, Texts(e.memberIds))
    && match e.seed
       case Some(n) => SafeInteger(n) && Stated(facts, e.id, Seed, Number(n))
       case None => Unstated(facts, e.id, Seed) || Stated(facts, e.id, Seed, Null)
  }

  lemma {:induction false} FieldsAre(facts: seq<Fact>, id: string, f: Field, v: Value)
    ensures Get(Fields(facts), id, f) == Some(v) <==> Stated(facts, id, f, v)
    ensures Get(Fields(facts), id, f) == None <==> Unstated(facts, id, f)
  {
    if facts != [] {
      var front, last := facts[..|facts| - 1], facts[|facts| - 1];
      assert facts == front + [last];
      FieldsAre(front, id, f, v);
      FieldsSnoc(front, last);
      StatedSnoc(front, last, id, f, v);
    }
  }

  lemma StatedSnoc(front: seq<Fact>, last: Fact, id: string, f: Field, v: Value)
    ensures Stated(front + [last], id, f, v) <==>
              if ParsePath(last.path) == Some((id, f)) then last.value == v else Stated(front, id, f, v)
  {
    if ParsePath(last.path) == Some((id, f)) {
      StatedLast(front, last, id, f, v);
    } else {
      if Stated(front, id, f, v) { StillStated(front, last, id, f, v); }
      if Stated(front + [last], id, f, v) { StatedBefore(front, last, id, f, v); }
    }
  }

  lemma StatedLast(front: seq<Fact>, last: Fact, id: string, f: Field, v: Value)
    requires ParsePath(last.path) == Some((id, f))
    ensures Stated(front + [last], id, f, v) <==> last.value == v
  {
    assert (front + [last])[|front|] == last;
  }

  lemma StillStated(front: seq<Fact>, last: Fact, id: string, f: Field, v: Value)
    requires Stated(front, id, f, v) && ParsePath(last.path) != Some((id, f))
    ensures Stated(front + [last], id, f, v)
  {
    var i :| 0 <= i < |front| && ParsePath(front[i].path) == Some((id, f)) && front[i].value == v
             && forall j | i < j < |front| :: ParsePath(front[j].path) != Some((id, f));
    assert (front + [last])[i] == front[i];
  }

  lemma StatedBefore(front: seq<Fact>, last: Fact, id: string, f: Field, v: Value)
    requires Stated(front + [last], id, f, v) && ParsePath(last.path) != Some((id, f))
    ensures Stated(front, id, f, v)
  {
    var facts := front + [last];
    var i :| 0 <= i < |facts| && ParsePath(facts[i].path) == Some((id, f)) && facts[i].value == v
             && forall j | i < j < |facts| :: ParsePath(facts[j].path) != Some((id, f));
    assert facts[i] == front[i];
    forall j | i < j < |front| ensures ParsePath(front[j].path) != Some((id, f)) { assert facts[j] == front[j]; }
  }

  lemma EntryReadIff(facts: seq<Fact>, e: Entry)
    ensures ReadEntry(Fields(facts), e.id) == Some(e) <==> StatesEntry(facts, e)
  {
    FieldsAre(facts, e.id, DisplayName, Text(e.displayName));
    FieldsAre(facts, e.id, DivisionId, Text(e.divisionId));
    FieldsAre(facts, e.id, MemberIds, Texts(e.memberIds));
    FieldsAre(facts, e.id, Seed, if e.seed.Some? then Number(e.seed.value) else Null);
  }

  lemma {:induction false} ReadAllIff(fields: Table, ids: seq<string>, roster: seq<Entry>)
    ensures ReadAll(fields, ids) == Some(roster) <==>
              |roster| == |ids| && forall k | 0 <= k < |ids| :: ReadEntry(fields, ids[k]) == Some(roster[k])
  {
    if ids != [] && roster != [] {
      ReadAllIff(fields, ids[..|ids| - 1], roster[..|roster| - 1]);
      assert roster == roster[..|roster| - 1] + [roster[|roster| - 1]];
    }
  }

  lemma EntryKeepsItsId(fields: Table, id: string)
    ensures ReadEntry(fields, id).Some? ==> ReadEntry(fields, id).value.id == id
  {
  }

  /** Facts are read as a roster exactly when they give its size, its order of distinct entrants, and each entrant. */
  lemma RosterReadIff(facts: seq<Fact>, roster: seq<Entry>)
    ensures RosterFrom(facts) == Some(roster) <==>
              && FindFact(facts, ORDER) == Some(Texts(Ids(roster))) && FindFact(facts, TOTAL) == Some(Number(|roster|))
              && SafeInteger(|roster|) && Distinct(Ids(roster)) && forall e | e in roster :: StatesEntry(facts, e)
  {
    var order := FindFact(facts, ORDER);
    if order.Some? && order.value.Texts? {
      var ids := order.value.texts;
      assert Values(ids) == Elements(ids);
      DistinctCount(ids);
      ReadAllIff(Fields(facts), ids, roster);
      forall k | 0 <= k < |roster| ensures ReadEntry(Fields(facts), roster[k].id) == Some(roster[k]) <==> StatesEntry(facts, roster[k]) {
        EntryReadIff(facts, roster[k]);
      }
      RosterOfIds(Fields(facts), ids, roster);
      assert forall e :: e in roster <==> exists k :: 0 <= k < |roster| && roster[k] == e;
    }
  }

  lemma RosterOfIds(fields: Table, ids: seq<string>, roster: seq<Entry>)
    ensures (|roster| == |ids| && forall k | 0 <= k < |ids| :: ReadEntry(fields, ids[k]) == Some(roster[k])) <==>
              (ids == Ids(roster) && forall k | 0 <= k < |roster| :: ReadEntry(fields, roster[k].id) == Some(roster[k]))
  {
    if |roster| == |ids| && forall k | 0 <= k < |ids| :: ReadEntry(fields, ids[k]) == Some(roster[k]) {
      forall k | 0 <= k < |ids| ensures ids[k] == roster[k].id { EntryKeepsItsId(fields, ids[k]); }
      assert ids == Ids(roster);
    }
  }
}
