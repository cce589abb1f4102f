/** Saved favourites of `planning.slot`: finding one by name, reading its
    domain, collecting the selected favourites' domains, and the employee
    names they select (`get_employees_from_favorites`). */
module Favorites {
  import opened Wrappers
  import opened Values
  import opened Domains

  /** Every favourite carries a `name`; the favourite list indexes it
      directly, so one without would stop the report. */
  predicate Named(favs: seq<Record>) {
    forall i :: 0 <= i < |favs| ==> "name" in favs[i]
  }

  /** `next((x for x in favs if x["name"] == name), None)`. */
  function LookupFavorite(favs: seq<Record>, name: Value): (r: Option<Record>)
    requires Named(favs)
    ensures r.None? <==> forall i :: 0 <= i < |favs| ==> favs[i]["name"] != name
    ensures r.Some? ==> exists i :: 0 <= i < |favs| && favs[i] == r.value && favs[i]["name"] == name &&
                                    forall j :: 0 <= j < i ==> favs[j]["name"] != name
  {
    if |favs| == 0 then None
    else if favs[0]["name"] == name then Some(favs[0])
    else
      var r := LookupFavorite(favs[1..], name);
      assert forall i :: 1 <= i < |favs| ==> favs[i] == favs[1..][i - 1];
      r
  }

  /** A favourite's domain: `parse_domain(rec.get("domain", "[]"))`. */
  function FavoriteDomain(fav: Record, literal: string -> Option<Domain>): (d: Domain)
    ensures "domain" in fav ==> d == ParseDomain(fav["domain"], literal)
    ensures "domain" !in fav ==> d == ParseDomain(Str("[]"), literal)
  {
    ParseDomain(GetOr(fav, "domain", Str("[]")), literal)
  }

  /** The domain one selected name contributes: none when no favourite has
      that name or its domain is empty. */
  function SelectedDomain(favs: seq<Record>, name: Value, literal: string -> Option<Domain>): (r: seq<Domain>)
    requires Named(favs)
    ensures |r| <= 1 && forall d :: d in r ==> d != []
    ensures r != [] <==> LookupFavorite(favs, name).Some? && FavoriteDomain(LookupFavorite(favs, name).value, literal) != []
  {
    match LookupFavorite(favs, name)
    case None => []
    case Some(fav) =>
      var d := FavoriteDomain(fav, literal);
      if d != [] then [d] else []
  }

  /** The parts `f(x)` for the `xs`, laid end to end in order. */
  function FlatMap<A, B>(xs: seq<A>, f: A -> seq<B>): (r: seq<B>)
    ensures (forall x :: x in xs ==> |f(x)| <= 1) ==> |r| <= |xs|
  {
    if |xs| == 0 then []
    else
      var init := xs[..|xs| - 1];
      assert forall x :: x in init ==> x in xs;
      FlatMap(init, f) + f(xs[|xs| - 1])
  }

  /** An element is in the flattening exactly when some part holds it. */
  lemma {:induction false} FlatMapMembers<A, B>(xs: seq<A>, f: A -> seq<B>)
    ensures forall y :: y in FlatMap(xs, f) <==> exists j :: 0 <= j < |xs| && y in f(xs[j])
  {
    if |xs| > 0 {
      var n := |xs| - 1;
      var init := xs[..n];
      FlatMapMembers(init, f);
      forall y ensures y in FlatMap(xs, f) <==> exists j :: 0 <= j < |xs| && y in f(xs[j]) {
        if y in FlatMap(init, f) {
          var j :| 0 <= j < n && y in f(init[j]);
          assert init[j] == xs[j];
        }
        if exists j :: 0 <= j < |xs| && y in f(xs[j]) {
          var j :| 0 <= j < |xs| && y in f(xs[j]);
          if j < n { assert init[j] == xs[j]; }
        }
      }
    }
  }

  /** The loop over the selected favourites that fills `fav_domains`. */
  function FavoriteDomains(favs: seq<Record>, selected: seq<Value>, literal: string -> Option<Domain>): (ds: seq<Domain>)
    requires Named(favs)
    ensures |ds| <= |selected|
    ensures forall i :: 0 <= i < |ds| ==> ds[i] != []
    ensures selected == [] ==> ds == []
  {
    var ds := FlatMap(selected, name => SelectedDomain(favs, name, literal));
    FlatMapMembers(selected, name => SelectedDomain(favs, name, literal));
    assert forall i :: 0 <= i < |ds| ==> ds[i] in ds;
    ds
  }

  /** Flattening one more element appends its part at the end. */
  lemma FlatMapSnoc<A, B>(xs: seq<A>, x: A, f: A -> seq<B>)
    ensures FlatMap(xs + [x], f) == FlatMap(xs, f) + f(x)
  {
    assert (xs + [x])[..|xs|] == xs;
  }

  /** The collecting loop, one selected name at a time: the domains come in
      the order the names were selected, each contributing name adding its
      one domain at the end and every other name adding nothing. */
  lemma FavoriteDomainsStep(favs: seq<Record>, selected: seq<Value>, name: Value, literal: string -> Option<Domain>)
    requires Named(favs)
    ensures FavoriteDomains(favs, selected + [name], literal) ==
            FavoriteDomains(favs, selected, literal) + SelectedDomain(favs, name, literal)
  {
    FlatMapSnoc(selected, name, n => SelectedDomain(favs, n, literal));
  }

  /** A domain is collected exactly when some selected name finds a
      favourite whose domain parses to it and is non-empty. */
  lemma FavoriteDomainsCollect(favs: seq<Record>, selected: seq<Value>, literal: string -> Option<Domain>)
    requires Named(favs)
    ensures forall d :: d in FavoriteDomains(favs, selected, literal) <==>
      exists j :: 0 <= j < |selected| && d in SelectedDomain(favs, selected[j], literal)
  {
    FlatMapMembers(selected, name => SelectedDomain(favs, name, literal));
  }

  /** A favourite without a stored domain adds nothing when the literal
      reader reads `"[]"` as the empty list. */
  lemma FavoriteWithoutDomainIgnored(favs: seq<Record>, name: Value, literal: string -> Option<Domain>)
    requires Named(favs)
    requires literal("[]") == Some([])
    requires LookupFavorite(favs, name).Some? && "domain" !in LookupFavorite(favs, name).value
    ensures SelectedDomain(favs, name, literal) == []
  {
  }

  // ---------------------------------------------------------------------
  // Employees selected by the favourites (recap branch)
  // ---------------------------------------------------------------------

  /** The truthy `name`s of the employees one search returned. */
  function NamesOf(emps: seq<Record>): (r: set<Value>)
    ensures forall v :: v in r <==> Truthy(v) && exists e :: e in emps && Get(e, "name") == v
  {
    if |emps| == 0 then {}
    else
      var v := Get(emps[|emps| - 1], "name");
      var rest := NamesOf(emps[..|emps| - 1]);
      assert forall e :: e in emps <==> e in emps[..|emps| - 1] || e == emps[|emps| - 1];
      if Truthy(v) then rest + {v} else rest
  }

  /** `get_employees_from_favorites`: the union over the domains of the
      names their employee search returned; a search that fails adds none. */
  function EmployeeNames(domains: seq<Domain>, search: Domain -> Option<seq<Record>>): (r: set<Value>)
    ensures forall v :: v in r <==>
      exists i :: 0 <= i < |domains| && search(domains[i]).Some? && v in NamesOf(search(domains[i]).value)
  {
    if |domains| == 0 then {}
    else
      var n := |domains| - 1;
      var rest := EmployeeNames(domains[..n], search);
      assert forall i :: 0 <= i < n ==> domains[..n][i] == domains[i];
      match search(domains[n])
      case None => rest
      case Some(emps) => rest + NamesOf(emps)
  }

  /** The recap filter: no filter when no favourite contributed a domain,
      otherwise the employee names those domains select. */
  function AllowedNames(domains: seq<Domain>, search: Domain -> Option<seq<Record>>): (r: Option<set<Value>>)
    ensures r.None? <==> domains == []
    ensures r.Some? ==> r.value == EmployeeNames(domains, search)
  {
    if domains != [] then Some(EmployeeNames(domains, search)) else None
  }
}
