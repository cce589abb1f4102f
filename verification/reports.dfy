/** The two reports `main` produces: the morning task list, one row per
    designer, and the recap report, one row per recap entry, with the
    messages shown when there is nothing to report. */
module Reports {
  import opened Wrappers
  import opened Values
  import opened Text
  import opened Domains
  import opened DomainEval
  import opened Grouping
  import opened Favorites
  import opened Fetch
  import Morning
  import Recap

  /** The owner of a record whose relation field is not a `[id, name]` pair. */
  const Unassigned: Value := Str("Unassigned")

  /** The display name of a record's owner relation, or `Unassigned`. */
  function OwnerName(rec: Record, field: string): (r: Value)
    ensures IsRelation(Get(rec, field)) ==> r == Get(rec, field).items[1]
    ensures !IsRelation(Get(rec, field)) ==> r == Unassigned
  {
    var v := Get(rec, field);
    if IsRelation(v) then v.items[1] else Unassigned
  }

  /** The designer a planning slot is listed under. */
  function DesignerOf(task: Record): Value { OwnerName(task, "resource_id") }

  /** The employee a recap is listed under. */
  function CreatorOf(rec: Record): Value { OwnerName(rec, "create_uid") }

  /** The date picker's days widened to whole days: `day` is the day as
      `%Y-%m-%d` prints it. */
  function DayStart(day: string): string { day + " 00:00:00" }
  function DayEnd(day: string): string { day + " 23:59:59" }

  /** A `%H:%M:%S` time of day: hour up to 23, minute and second up to 59. */
  predicate ClockTime(t: string) {
    |t| == 8 && t[2] == ':' && t[5] == ':' &&
    (forall i :: 0 <= i < 8 && i != 2 && i != 5 ==> '0' <= t[i] <= '9') &&
    t[0] <= '2' && (t[0] == '2' ==> t[1] <= '3') && t[3] <= '5' && t[6] <= '5'
  }

  /** The widened bounds hold exactly the chosen day: a timestamp `d t`
      whose date is as wide as the chosen one lies between them in text
      order just when `d` is that day. */
  lemma DayWindow(day: string, d: string, t: string)
    requires ClockTime(t) && |d| == |day|
    ensures (TextLe(DayStart(day), d + " " + t) && TextLe(d + " " + t, DayEnd(day))) <==> d == day
  {
    var x := d + (" " + t);
    assert d + " " + t == x;
    assert DayStart(day) == day + " 00:00:00";
    assert DayEnd(day) == day + " 23:59:59";
    if d == day {
      TextLePointwise(" 00:00:00", " " + t);
      TextLePrefix(day, " 00:00:00", " " + t);
      if t[0] == '2' {
        TextLePointwise(" " + t, " 23:59:59");
      } else {
        assert (" " + t)[1..] == t;
        assert TextLe(t, "23:59:59");
      }
      TextLePrefix(day, " " + t, " 23:59:59");
    } else {
      TextLeTotal(day, d);
      TextLeDecided(day, d, " 00:00:00", " " + t);
      TextLeDecided(d, day, " " + t, " 23:59:59");
    }
  }

  /** What a remote search returned, an empty list when it raised. */
  function Fetched(r: Option<seq<Record>>): (xs: seq<Record>)
    ensures r.None? ==> xs == []
    ensures r.Some? ==> xs == r.value
  {
    r.GetOr([])
  }

  /** One row of a report table: the designer cell and the details cell. */
  datatype Row = Row(designer: string, details: string)

  /** A report, or the message shown instead of one. */
  datatype Outcome = Report(rows: seq<Row>) | Failure(message: string)

  const NoTasksMessage: string := "No tasks found with the selected filters (Morning)."
  const NoRecapsMessage: string := "No recaps found in x_recaps for that date range."
  const NoMatchingRecapsMessage: string := "No recaps found matching the selected favorites."

  // ---------------------------------------------------------------------
  // Morning task list
  // ---------------------------------------------------------------------

  /** The `planning.slot` query as the program builds it: the date window,
      ANDed with the selected favourites' domains folded by
      `combine_domains_or` (the window alone when none is usable). */
  function MorningQuery(favs: seq<Record>, selected: seq<Value>, literal: string -> Option<Domain>,
                        startDay: string, endDay: string): Domain
    requires Named(favs)
  {
    FinalDomain(DateDomain("start_datetime", DayStart(startDay), DayEnd(endDay)),
                CombineDomainsOr(FavoriteDomains(favs, selected, literal)))
  }

  /** The query is well formed and selects the slots inside the date window
      that match the folded favourites' domain. When every favourite domain
      is a single term, that is exactly the slots some favourite selects;
      otherwise the fold may group terms differently (see
      `CombineMisgroupsImplicitAnd`). */
  lemma MorningQueryMeaning(favs: seq<Record>, selected: seq<Value>, literal: string -> Option<Domain>,
                            startDay: string, endDay: string, leaf: Token -> bool)
    requires Named(favs)
    requires forall i :: 0 <= i < |FavoriteDomains(favs, selected, literal)| ==>
               WellFormed(FavoriteDomains(favs, selected, literal)[i])
    ensures WellFormed(CombineDomainsOr(FavoriteDomains(favs, selected, literal)))
    ensures WellFormed(MorningQuery(favs, selected, literal, startDay, endDay))
    ensures Matches(MorningQuery(favs, selected, literal, startDay, endDay), leaf) <==>
      leaf(Leaf("start_datetime", ">=", Str(DayStart(startDay)))) &&
      leaf(Leaf("start_datetime", "<=", Str(DayEnd(endDay)))) &&
      Matches(CombineDomainsOr(FavoriteDomains(favs, selected, literal)), leaf)
    ensures (forall i :: 0 <= i < |FavoriteDomains(favs, selected, literal)| ==>
               SingleTerm(FavoriteDomains(favs, selected, literal)[i])) ==>
      (Matches(MorningQuery(favs, selected, literal, startDay, endDay), leaf) <==>
       leaf(Leaf("start_datetime", ">=", Str(DayStart(startDay)))) &&
       leaf(Leaf("start_datetime", "<=", Str(DayEnd(endDay)))) &&
       (FavoriteDomains(favs, selected, literal) == [] ||
        exists i :: 0 <= i < |FavoriteDomains(favs, selected, literal)| &&
                    Matches(FavoriteDomains(favs, selected, literal)[i], leaf)))
  {
    var ds := FavoriteDomains(favs, selected, literal);
    var combined := CombineDomainsOr(ds);
    CombineWellFormed(ds);
    FinalDomainIsConjunction("start_datetime", DayStart(startDay), DayEnd(endDay), combined, leaf);
    DateDomainMeaning("start_datetime", DayStart(startDay), DayEnd(endDay), leaf);
    if ds == [] {
      assert combined == [];
      assert EvalFrom(combined, 0, leaf);
    } else if forall i :: 0 <= i < |ds| ==> SingleTerm(ds[i]) {
      SingleFavouritesAreOr(ds, leaf);
    }
  }

  /** The fold of single-term favourites matches exactly when one of them
      does. */
  lemma SingleFavouritesAreOr(ds: seq<Domain>, leaf: Token -> bool)
    requires |ds| >= 1
    requires forall i :: 0 <= i < |ds| ==> SingleTerm(ds[i])
    ensures WellFormed(CombineDomainsOr(ds))
    ensures forall i :: 0 <= i < |ds| ==> WellFormed(ds[i])
    ensures Matches(CombineDomainsOr(ds), leaf) <==> exists i :: 0 <= i < |ds| && Matches(ds[i], leaf)
  {
    CombineSingleTerms(ds, leaf);
    SingleTermDomain(CombineDomainsOr(ds), leaf);
    forall i | 0 <= i < |ds| ensures WellFormed(ds[i]) && Matches(ds[i], leaf) == EvalTerm(ds[i], 0, leaf) {
      SingleTermDomain(ds[i], leaf);
    }
  }

  /** The query as it should be built: each favourite normalised to one
      term before the OR (the corrected fold). */
  function CorrectedMorningQuery(favs: seq<Record>, selected: seq<Value>, literal: string -> Option<Domain>,
                                 startDay: string, endDay: string): Domain
    requires Named(favs)
  {
    FinalDomain(DateDomain("start_datetime", DayStart(startDay), DayEnd(endDay)),
                CombineDomainsOrNormalized(FavoriteDomains(favs, selected, literal)))
  }

  /** The corrected query selects exactly the slots inside the date window
      that some selected favourite's domain selects, or all of the window
      when no favourite contributed a domain, whatever the favourites' shape. */
  lemma CorrectedMorningQueryMeaning(favs: seq<Record>, selected: seq<Value>, literal: string -> Option<Domain>,
                                     startDay: string, endDay: string, leaf: Token -> bool)
    requires Named(favs)
    requires forall i :: 0 <= i < |FavoriteDomains(favs, selected, literal)| ==>
               WellFormed(FavoriteDomains(favs, selected, literal)[i])
    ensures WellFormed(CorrectedMorningQuery(favs, selected, literal, startDay, endDay))
    ensures Matches(CorrectedMorningQuery(favs, selected, literal, startDay, endDay), leaf) <==>
      leaf(Leaf("start_datetime", ">=", Str(DayStart(startDay)))) &&
      leaf(Leaf("start_datetime", "<=", Str(DayEnd(endDay)))) &&
      (FavoriteDomains(favs, selected, literal) == [] ||
       exists i :: 0 <= i < |FavoriteDomains(favs, selected, literal)| &&
                   Matches(FavoriteDomains(favs, selected, literal)[i], leaf))
  {
    var ds := FavoriteDomains(favs, selected, literal);
    var combined := CombineDomainsOrNormalized(ds);
    if ds != [] {
      CombineNormalizedIsOr(ds, leaf);
    } else {
      assert combined == [];
      assert WfFrom(combined, 0) && EvalFrom(combined, 0, leaf);
    }
    FinalDomainIsConjunction("start_datetime", DayStart(startDay), DayEnd(endDay), combined, leaf);
    DateDomainMeaning("start_datetime", DayStart(startDay), DayEnd(endDay), leaf);
  }

  /** The text blocks of one designer's slots. */
  function TaskTexts(tasks: seq<Record>, subtasks: map<Value, Record>): (r: seq<string>)
    ensures |r| == |tasks|
    ensures forall i :: 0 <= i < |tasks| ==> r[i] == Morning.BuildMorningText(tasks[i], subtasks)
  {
    seq(|tasks|, i requires 0 <= i < |tasks| => Morning.BuildMorningText(tasks[i], subtasks))
  }

  /** The details cell of a designer: the slots' blocks separated by a blank
      line; empty only for a designer without slots. */
  function MorningCell(tasks: seq<Record>, subtasks: map<Value, Record>): (r: string)
    ensures r == "" <==> tasks == []
  {
    var texts := TaskTexts(tasks, subtasks);
    assert |texts| > 0 ==> |texts[0]| > 0;
    Join("\n\n", texts)
  }

  /** The rendered lines of each slot's block, slot by slot. */
  function BlockLines(tasks: seq<Record>, subtasks: map<Value, Record>): (r: seq<seq<string>>)
    ensures |r| == |tasks|
  {
    seq(|tasks|, i requires 0 <= i < |tasks| =>
      MapStrings(Morning.MorningLines(tasks[i], subtasks), Morning.RenderLine))
  }

  /** The cell is the slots' blocks in slot order with one blank line between
      consecutive blocks: when no field text holds a newline, splitting it at
      newlines gives each block's lines with a single empty line between
      blocks. */
  lemma MorningCellLines(tasks: seq<Record>, subtasks: map<Value, Record>)
    requires forall i, l :: 0 <= i < |tasks| && l in Morning.MorningLines(tasks[i], subtasks) ==> '\n' !in l.value
    ensures tasks != [] ==> Split(MorningCell(tasks, subtasks), '\n') == Spaced(BlockLines(tasks, subtasks))
  {
    if tasks != [] {
      var bs := BlockLines(tasks, subtasks);
      var texts := TaskTexts(tasks, subtasks);
      forall i | 0 <= i < |tasks|
        ensures bs[i] != [] && texts[i] == Join("\n", bs[i])
        ensures forall j :: 0 <= j < |bs[i]| ==> '\n' !in bs[i][j]
      {
        Morning.RenderedBlock(tasks[i], subtasks);
      }
      SplitSpaced(bs, texts);
    }
  }

  /** One row per designer group, in group order. */
  function MorningRows(groups: Groups<Value, Record>, subtasks: map<Value, Record>): (rows: seq<Row>)
    ensures |rows| == |groups|
    ensures forall i :: 0 <= i < |groups| ==>
      rows[i] == Row(Format(groups[i].0), MorningCell(groups[i].1, subtasks))
  {
    seq(|groups|, i requires 0 <= i < |groups| => Row(Format(groups[i].0), MorningCell(groups[i].1, subtasks)))
  }

  /** A designer with slots gets a non-empty details cell. */
  lemma MorningRowsNonEmpty(groups: Groups<Value, Record>, subtasks: map<Value, Record>)
    requires forall i :: 0 <= i < |groups| ==> groups[i].1 != []
    ensures forall i :: 0 <= i < |groups| ==> MorningRows(groups, subtasks)[i].details != ""
  {
    var rows := MorningRows(groups, subtasks);
    forall i | 0 <= i < |groups| ensures rows[i].details != "" {
      assert rows[i].details == MorningCell(groups[i].1, subtasks);
    }
  }

  /** The morning table lists each designer once, in the order the slots
      first name them; each row's cell is non-empty and holds exactly that
      designer's slots; together the rows hold every slot once. */
  lemma MorningRowsCoverTasks(tasks: seq<Record>, subtasks: map<Value, Record>)
    ensures var g := GroupBy(tasks, DesignerOf);
      |MorningRows(g, subtasks)| == |Distinct(KeySeq(tasks, DesignerOf))| &&
      KeysOf(g) == Distinct(KeySeq(tasks, DesignerOf)) &&
      (forall i :: 0 <= i < |g| ==> g[i].1 == Matching(tasks, DesignerOf, g[i].0)) &&
      (forall i :: 0 <= i < |g| ==> MorningRows(g, subtasks)[i].details != "") &&
      (forall j :: 0 <= j < |tasks| ==> HasKey(g, DesignerOf(tasks[j]))) &&
      TotalSize(g) == |tasks|
  {
    var g := GroupBy(tasks, DesignerOf);
    GroupByFirstSeen(tasks, DesignerOf);
    GroupByPartitions(tasks, DesignerOf);
    GroupByCovers(tasks, DesignerOf);
    GroupBySize(tasks, DesignerOf);
    assert |KeysOf(g)| == |g|;
    MorningRowsNonEmpty(g, subtasks);
  }

  /** The morning branch after the button: build the query, fetch the slots
      with `searchTasks`, group them by designer, read the sub-task details
      with `read`, and build one row per designer; the error message when no
      slot came back. */
  method MorningReport(favs: seq<Record>, selected: seq<Value>, literal: string -> Option<Domain>,
                       startDay: string, endDay: string,
                       searchTasks: Domain -> Option<seq<Record>>,
                       read: seq<Value> -> Option<seq<Record>>)
    returns (query: Domain, subtasks: map<Value, Record>, out: Outcome)
    requires Named(favs)
    ensures query == MorningQuery(favs, selected, literal, startDay, endDay)
    ensures out == Failure(NoTasksMessage) <==> Fetched(searchTasks(query)) == []
    ensures out.Failure? ==> out.message == NoTasksMessage
    ensures out.Report? ==> out.rows == MorningRows(GroupBy(Fetched(searchTasks(query)), DesignerOf), subtasks)
    ensures out.Report? ==> |out.rows| >= 1
    ensures forall k :: k in subtasks ==> "id" in subtasks[k] && subtasks[k]["id"] == k
  {
    query := MorningQuery(favs, selected, literal, startDay, endDay);
    var tasks := Fetched(searchTasks(query));
    if tasks == [] {
      return query, map[], Failure(NoTasksMessage);
    }
    var groups := GroupBy(tasks, DesignerOf);
    GroupByCovers(tasks, DesignerOf);
    assert HasKey(groups, DesignerOf(tasks[0]));
    var asked;
    subtasks, asked := FetchSubtaskDetails(SubtaskIds(tasks), read);
    out := Report(MorningRows(groups, subtasks));
  }

  // ---------------------------------------------------------------------
  // Recap report
  // ---------------------------------------------------------------------

  /** The `x_recaps` query: entries created within the chosen days. */
  function RecapQuery(startDay: string, endDay: string): Domain {
    DateDomain("create_date", DayStart(startDay), DayEnd(endDay))
  }

  /** The leaf test of a record whose `field` holds `stamp`, comparing as
      text against string bounds. */
  function StampLeaf(field: string, stamp: string): Token -> bool {
    (t: Token) => t.Leaf? && t.field == field && t.value.Str? &&
      ((t.op == ">=" && TextLe(t.value.s, stamp)) || (t.op == "<=" && TextLe(stamp, t.value.s)))
  }

  /** A recap created at `d t` is fetched exactly when it lies within the
      widened days; for a one-day range, exactly when `d` is that day. */
  lemma RecapQueryMeaning(startDay: string, endDay: string, d: string, t: string)
    requires ClockTime(t)
    ensures WellFormed(RecapQuery(startDay, endDay))
    ensures Matches(RecapQuery(startDay, endDay), StampLeaf("create_date", d + " " + t)) <==>
            TextLe(DayStart(startDay), d + " " + t) && TextLe(d + " " + t, DayEnd(endDay))
    ensures |d| == |startDay| && startDay == endDay ==>
            (Matches(RecapQuery(startDay, endDay), StampLeaf("create_date", d + " " + t)) <==> d == startDay)
  {
    DateDomainMeaning("create_date", DayStart(startDay), DayEnd(endDay), StampLeaf("create_date", d + " " + t));
    if |d| == |startDay| && startDay == endDay {
      DayWindow(startDay, d, t);
    }
  }

  /** A recap passes the filter when there is none or its creator is allowed. */
  predicate Kept(allowed: Option<set<Value>>, rec: Record) {
    allowed.None? || CreatorOf(rec) in allowed.value
  }

  /** The recaps that pass the filter, in their original order: for each
      creator, all of that creator's recaps in fetch order when the creator
      is allowed, and none otherwise. */
  function KeptRecaps(recs: seq<Record>, allowed: Option<set<Value>>): (r: seq<Record>)
    ensures |r| <= |recs|
    ensures forall x :: x in r <==> x in recs && Kept(allowed, x)
    ensures forall k :: Matching(r, CreatorOf, k) ==
              if allowed.None? || k in allowed.value then Matching(recs, CreatorOf, k) else []
  {
    if |recs| == 0 then []
    else
      var n := |recs| - 1;
      var rest := KeptRecaps(recs[..n], allowed);
      assert forall x :: x in recs <==> x in recs[..n] || x == recs[n];
      if Kept(allowed, recs[n]) then
        var r := rest + [recs[n]];
        assert r[..|r| - 1] == rest;
        r
      else rest
  }

  /** Without a filter every recap is kept, in order. */
  lemma {:induction false} KeptAllWhenUnfiltered(recs: seq<Record>)
    ensures KeptRecaps(recs, None) == recs
  {
    if |recs| > 0 {
      var n := |recs| - 1;
      KeptAllWhenUnfiltered(recs[..n]);
      assert recs[..n] + [recs[n]] == recs;
    }
  }

  /** The recap grouping: creators of kept recaps, first seen first. */
  function GroupRecaps(recs: seq<Record>, allowed: Option<set<Value>>): Groups<Value, Record> {
    GroupBy(KeptRecaps(recs, allowed), CreatorOf)
  }

  /** The row of one recap: its creator and its text. */
  function RecapRow(creator: Value, rec: Record): Row {
    Row(Format(creator), Recap.BuildRecapText(rec))
  }

  /** `create_recap_notes_table`: for each creator in group order, one row
      per recap of theirs. */
  function RecapRows(groups: Groups<Value, Record>): (rows: seq<Row>)
    ensures |rows| == TotalSize(groups)
  {
    MapPairs(Flatten(groups), RecapRow)
  }

  /** The recap branch: resolve the selected favourites to employee names
      with `searchEmployees`, fetch the recaps with `searchRecaps`, keep
      those of allowed creators, group and list them; a message instead of
      a report when nothing was fetched or nothing passed the filter. */
  function RecapReport(favs: seq<Record>, selected: seq<Value>, literal: string -> Option<Domain>,
                       searchEmployees: Domain -> Option<seq<Record>>,
                       startDay: string, endDay: string,
                       searchRecaps: Domain -> Option<seq<Record>>): (out: Outcome)
    requires Named(favs)
    ensures Fetched(searchRecaps(RecapQuery(startDay, endDay))) == [] <==> out == Failure(NoRecapsMessage)
  {
    var allowed := AllowedNames(FavoriteDomains(favs, selected, literal), searchEmployees);
    var recs := Fetched(searchRecaps(RecapQuery(startDay, endDay)));
    if recs == [] then Failure(NoRecapsMessage)
    else
      var g := GroupRecaps(recs, allowed);
      if g == [] then Failure(NoMatchingRecapsMessage) else Report(RecapRows(g))
  }

  /** Once recaps were fetched, the report lists one row per kept recap,
      under its creator, and nothing else; with no favourite domain every
      recap is kept; the "no match" message appears exactly when the filter
      dropped every recap. */
  lemma RecapReportMeaning(favs: seq<Record>, selected: seq<Value>, literal: string -> Option<Domain>,
                           searchEmployees: Domain -> Option<seq<Record>>,
                           startDay: string, endDay: string,
                           searchRecaps: Domain -> Option<seq<Record>>)
    requires Named(favs)
    requires Fetched(searchRecaps(RecapQuery(startDay, endDay))) != []
    ensures var recs := Fetched(searchRecaps(RecapQuery(startDay, endDay)));
      var allowed := AllowedNames(FavoriteDomains(favs, selected, literal), searchEmployees);
      var out := RecapReport(favs, selected, literal, searchEmployees, startDay, endDay, searchRecaps);
      (out == Failure(NoMatchingRecapsMessage) <==> KeptRecaps(recs, allowed) == []) &&
      (out.Failure? ==> out.message == NoMatchingRecapsMessage) &&
      (allowed.None? ==> out.Report? && |out.rows| == |recs|) &&
      (out.Report? ==> |out.rows| == |KeptRecaps(recs, allowed)|) &&
      (out.Report? ==> forall row :: row in out.rows <==>
                         exists x :: x in recs && Kept(allowed, x) && row == RecapRow(CreatorOf(x), x)) &&
      (out.Report? ==> out.rows == RecapRows(GroupRecaps(recs, allowed)))
    ensures var recs := Fetched(searchRecaps(RecapQuery(startDay, endDay)));
      var allowed := AllowedNames(FavoriteDomains(favs, selected, literal), searchEmployees);
      var g := GroupRecaps(recs, allowed);
      KeysOf(g) == Distinct(KeySeq(KeptRecaps(recs, allowed), CreatorOf)) &&
      forall i :: 0 <= i < |g| ==>
        (allowed.None? || g[i].0 in allowed.value) && g[i].1 == Matching(recs, CreatorOf, g[i].0)
  {
    var recs := Fetched(searchRecaps(RecapQuery(startDay, endDay)));
    var allowed := AllowedNames(FavoriteDomains(favs, selected, literal), searchEmployees);
    var kept := KeptRecaps(recs, allowed);
    var g := GroupRecaps(recs, allowed);
    GroupByCovers(kept, CreatorOf);
    GroupBySize(kept, CreatorOf);
    if kept != [] {
      assert HasKey(g, CreatorOf(kept[0]));
    }
    if allowed.None? {
      KeptAllWhenUnfiltered(recs);
    }
    if g != [] {
      RecapRowsOfKept(kept);
    }
    RecapGroupsMeaning(recs, allowed);
  }

  /** The creators are listed in the order the kept recaps first name them;
      each is allowed, and its group holds all of its fetched recaps, in
      fetch order. */
  lemma RecapGroupsMeaning(recs: seq<Record>, allowed: Option<set<Value>>)
    ensures var g := GroupRecaps(recs, allowed);
      KeysOf(g) == Distinct(KeySeq(KeptRecaps(recs, allowed), CreatorOf)) &&
      forall i :: 0 <= i < |g| ==>
        (allowed.None? || g[i].0 in allowed.value) && g[i].1 == Matching(recs, CreatorOf, g[i].0)
  {
    var kept := KeptRecaps(recs, allowed);
    var g := GroupRecaps(recs, allowed);
    GroupByFirstSeen(kept, CreatorOf);
    GroupByPartitions(kept, CreatorOf);
    GroupByCovers(kept, CreatorOf);
    forall i | 0 <= i < |g|
      ensures (allowed.None? || g[i].0 in allowed.value) && g[i].1 == Matching(recs, CreatorOf, g[i].0)
    {
      assert g[i].1 == Matching(kept, CreatorOf, g[i].0) && g[i].1 != [];
    }
  }

  /** The rows of a grouping of `kept` are exactly the kept recaps' rows. */
  lemma RecapRowsOfKept(kept: seq<Record>)
    ensures forall row :: row in RecapRows(GroupBy(kept, CreatorOf)) <==>
              exists x :: x in kept && row == RecapRow(CreatorOf(x), x)
  {
    GroupByMapped(kept, CreatorOf, RecapRow);
  }
}
