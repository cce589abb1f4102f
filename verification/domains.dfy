/** Odoo search domains in their flat prefix (Polish) notation, and the
    operations `tasks_odoo_live.py` performs on them. */
module Domains {
  import opened Wrappers
  import opened Values

  /** One token of a domain: the operators `'|'`, `'&'`, `'!'`, or a
      `(field, operator, value)` leaf. */
  datatype Token = Or | And | Not | Leaf(field: string, op: string, value: Value)

  /** A domain as sent to the server: top-level terms are implicitly ANDed. */
  type Domain = seq<Token>

  /** `parse_domain`: the literal parser is a parameter (`ast.literal_eval`
      is not part of this model); a failed parse, or a stored value that is
      not a string at all, yields the empty domain. */
  function ParseDomain(text: Value, literal: string -> Option<Domain>): (d: Domain)
    ensures !text.Str? ==> d == []
    ensures text.Str? && literal(text.s).None? ==> d == []
    ensures text.Str? && literal(text.s).Some? ==> d == literal(text.s).value
  {
    if text.Str? then literal(text.s).GetOr([]) else []
  }

  /** `n` copies of one token. */
  function Repeat(t: Token, n: nat): (r: Domain)
    ensures |r| == n
    ensures forall i :: 0 <= i < n ==> r[i] == t
  {
    if n == 0 then [] else [t] + Repeat(t, n - 1)
  }

  /** All domains laid end to end, in order. */
  function Concat(ds: seq<Domain>): (r: Domain)
    ensures |r| == TotalLength(ds)
  {
    if |ds| == 0 then [] else Concat(ds[..|ds| - 1]) + ds[|ds| - 1]
  }

  function TotalLength(ds: seq<Domain>): nat {
    if |ds| == 0 then 0 else TotalLength(ds[..|ds| - 1]) + |ds[|ds| - 1]|
  }

  /** `combine_domains_or`: the left fold `combined = ['|'] + combined + d`. */
  function CombineDomainsOr(ds: seq<Domain>): (r: Domain)
    ensures |ds| == 0 ==> r == []
    ensures |ds| == 1 ==> r == ds[0]
    ensures |ds| >= 1 ==> r == Repeat(Or, |ds| - 1) + Concat(ds)
    ensures |ds| >= 1 ==> |r| == TotalLength(ds) + |ds| - 1
  {
    if |ds| == 0 then []
    else if |ds| == 1 then ds[0]
    else
      var init := CombineDomainsOr(ds[..|ds| - 1]);
      OrPrefixStep(init, ds);
      [Or] + init + ds[|ds| - 1]
  }

  /** One more fold step puts one more `'|'` in front and one more domain
      at the end. */
  lemma OrPrefixStep(init: Domain, ds: seq<Domain>)
    requires |ds| >= 2 && init == Repeat(Or, |ds| - 2) + Concat(ds[..|ds| - 1])
    ensures [Or] + init + ds[|ds| - 1] == Repeat(Or, |ds| - 1) + Concat(ds)
  {
    var n := |ds|;
    assert Repeat(Or, n - 1) == [Or] + Repeat(Or, n - 2);
    assert Concat(ds) == Concat(ds[..n - 1]) + ds[n - 1];
    Regroup([Or], Repeat(Or, n - 2), Concat(ds[..n - 1]), ds[n - 1],
            init, Repeat(Or, n - 1), Concat(ds));
  }

  /** `a + (b + c) + d` regrouped as `(a + b) + (c + d)`, with each part
      given by name. */
  lemma Regroup<X>(a: seq<X>, b: seq<X>, c: seq<X>, d: seq<X>, i: seq<X>, p: seq<X>, q: seq<X>)
    requires i == b + c && p == a + b && q == c + d
    ensures a + i + d == p + q
  {
  }

  /** The two-leaf window `[(field, '>=', lo), (field, '<=', hi)]`. */
  function DateDomain(field: string, lo: string, hi: string): Domain {
    [Leaf(field, ">=", Str(lo)), Leaf(field, "<=", Str(hi))]
  }

  /** The final query of the morning list: the date window alone when there
      is no favourite domain, otherwise `'&'`, the window, then the
      favourites' domain. */
  function FinalDomain(date: Domain, combined: Domain): (r: Domain)
    ensures combined == [] ==> r == date
    ensures combined != [] ==> |r| == 1 + |date| + |combined| && r[0] == And
                               && r[1..1 + |date|] == date && r[1 + |date|..] == combined
  {
    if combined != [] then [And] + date + combined else date
  }
}
