/**
 * What the report yields, said without the functions that read it: who is reported, in which order,
 * when reading raises, and which entries no run of the gate lets through.
 */
module AuditYields {
  import opened Prelude
  import opened AuditParser
  import opened AuditGate
  import opened AuditReport

  // ----- Python's `or` over a list of operands -------------------------------------------------

  /** Neither None, nor the empty string, nor 0. */
  predicate Usable(x: Scalar) {
    x != Nil && x != Text("") && x != Number(0)
  }

  ghost predicate NoneUsable(operands: seq<Scalar>) {
    forall k :: 0 <= k < |operands| ==> !Usable(operands[k])
  }

  /** Operand k is the first usable one. */
  ghost predicate FirstUsable(operands: seq<Scalar>, k: nat) {
    k < |operands| && Usable(operands[k]) && NoneUsable(operands[..k])
  }

  /** x is the first usable one of the operands, and the last one when none is usable. */
  ghost predicate Picks(operands: seq<Scalar>, x: Scalar) {
    || (operands != [] && NoneUsable(operands) && x == operands[|operands| - 1])
    || (exists k: nat :: FirstUsable(operands, k) && x == operands[k])
  }

  lemma UsableIs(x: Scalar)
    ensures Usable(x) <==> Truthy(x)
  {
  }

  lemma NoneOfMore(x: Scalar, operands: seq<Scalar>)
    ensures NoneUsable([x] + operands) <==> !Usable(x) && NoneUsable(operands)
  {
    var all := [x] + operands;
    assert all[0] == x && forall k :: 0 <= k < |operands| ==> all[k + 1] == operands[k];
  }

  lemma FirstOfMore(x: Scalar, operands: seq<Scalar>, k: nat)
    ensures FirstUsable([x] + operands, 0) <==> Usable(x)
    ensures FirstUsable([x] + operands, k + 1) <==> !Usable(x) && FirstUsable(operands, k)
  {
    if k < |operands| {
      assert ([x] + operands)[..k + 1] == [x] + operands[..k];
      NoneOfMore(x, operands[..k]);
    }
  }

  lemma PicksLast(x: Scalar, y: Scalar)
    ensures Picks([x], y) <==> y == x
  {
    if Usable(x) {
      assert FirstUsable([x], 0);
    }
  }

  lemma PicksOr(x: Scalar, operands: seq<Scalar>, y: Scalar)
    requires operands != []
    ensures Picks([x] + operands, y) <==> if Usable(x) then y == x else Picks(operands, y)
  {
    var all := [x] + operands;
    NoneOfMore(x, operands);
    FirstOfMore(x, operands, 0);
    forall k: nat | FirstUsable(all, k) ensures if k == 0 then Usable(x) else FirstUsable(operands, k - 1) {
      if k > 0 {
        FirstOfMore(x, operands, k - 1);
      }
    }
    forall k: nat | FirstUsable(operands, k) && !Usable(x) ensures FirstUsable(all, k + 1) {
      FirstOfMore(x, operands, k);
    }
    if !Usable(x) && Picks(operands, y) && !NoneUsable(operands) {
      var k: nat :| FirstUsable(operands, k) && y == operands[k];
      assert FirstUsable(all, k + 1) && all[k + 1] == y;
    }
  }

  lemma PicksTwo(a: Scalar, b: Scalar, y: Scalar)
    ensures Picks([a, b], y) <==> y == Or(a, b)
  {
    UsableIs(a);
    PicksLast(b, y);
    PicksOr(a, [b], y);
    assert [a] + [b] == [a, b];
  }

  lemma PicksMore(a: Scalar, operands: seq<Scalar>, rest: Scalar, y: Scalar)
    requires operands != [] && forall x :: Picks(operands, x) <==> x == rest
    ensures Picks([a] + operands, y) <==> y == Or(a, rest)
  {
    UsableIs(a);
    PicksOr(a, operands, y);
  }

  lemma PicksFour(a: Scalar, b: Scalar, c: Scalar, d: Scalar, y: Scalar)
    ensures Picks([a, b, c, d], y) <==> y == Or(a, Or(b, Or(c, d)))
  {
    forall x ensures Picks([c, d], x) <==> x == Or(c, d) {
      PicksTwo(c, d, x);
    }
    forall x ensures Picks([b, c, d], x) <==> x == Or(b, Or(c, d)) {
      PicksMore(b, [c, d], Or(c, d), x);
      assert [b] + [c, d] == [b, c, d];
    }
    PicksMore(a, [b, c, d], Or(b, Or(c, d)), y);
    assert [a] + [b, c, d] == [a, b, c, d];
  }

  lemma PicksFive(a: Scalar, b: Scalar, c: Scalar, d: Scalar, e: Scalar, y: Scalar)
    ensures Picks([a, b, c, d, e], y) <==> y == Or(a, Or(b, Or(c, Or(d, e))))
  {
    forall x ensures Picks([b, c, d, e], x) <==> x == Or(b, Or(c, Or(d, e))) {
      PicksFour(b, c, d, e, x);
    }
    PicksMore(a, [b, c, d, e], Or(b, Or(c, Or(d, e))), y);
    assert [a] + [b, c, d, e] == [a, b, c, d, e];
  }

  // ----- who is reported ------------------------------------------------------------------------

  /** The first CVE, None without one; and the numeric identifier as text. */
  function FirstCve(a: Advisory): Scalar {
    if a.cves == [] then Nil else a.cves[0]
  }

  function IdText(a: Advisory): Scalar {
    match a.id
    case Nil => Nil
    case Text(s) => Text(s)
    case Number(n) => Text(Decimal(n))
  }

  /** The advisory is reported as v. */
  ghost predicate ReportedAs(a: Advisory, v: Vuln) {
    && v.severity == a.severity && Picks([a.moduleName, a.name], v.name)
    && Picks([a.ghsa, a.url, FirstCve(a), IdText(a), a.title, a.advisory, a.overview], v.advisory)
  }

  /** The entry of a via list names the identifier. */
  ghost predicate Names(item: Item, id: Scalar) {
    match item
    case Dict(ghsa, url, source, title, name, _) => Picks([ghsa, url, source, title, name], id)
    case Plain(s) => id == Text(s)
    case Opaque => false
  }

  ghost predicate ViaNames(via: Via, id: Scalar) {
    match via
    case ViaList(items) => exists k :: 0 <= k < |items| && Names(items[k], id)
    case ViaText(s) => id == Text(s)
    case ViaOther => false
  }

  /** The package is reported as v: under its own name and severity, for a usable identifier it names. */
  ghost predicate PackageReportedAs(p: Package, v: Vuln) {
    v.name == Text(p.name) && v.severity == p.severity && Usable(v.advisory) && ViaNames(p.via, v.advisory)
  }

  function AdvisoriesOf(audit: Audit): seq<Advisory> {
    match audit.advisories
    case None => []
    case Some(advisories) => advisories
  }

  lemma AdvisoryReported(a: Advisory, v: Vuln)
    ensures ReportedAs(a, v) <==> v == FromAdvisory(a)
  {
    PicksTwo(a.moduleName, a.name, v.name);
    var rest := Or(IdText(a), Or(a.title, Or(a.advisory, a.overview)));
    forall x
      ensures Picks([FirstCve(a), IdText(a), a.title, a.advisory, a.overview], x) <==> x == Or(FirstCve(a), rest)
    {
      PicksFive(FirstCve(a), IdText(a), a.title, a.advisory, a.overview, x);
    }
    forall x
      ensures Picks([a.url, FirstCve(a), IdText(a), a.title, a.advisory, a.overview], x)
        <==> x == Or(a.url, Or(FirstCve(a), rest))
    {
      PicksMore(a.url, [FirstCve(a), IdText(a), a.title, a.advisory, a.overview], Or(FirstCve(a), rest), x);
      assert [a.url] + [FirstCve(a), IdText(a), a.title, a.advisory, a.overview]
        == [a.url, FirstCve(a), IdText(a), a.title, a.advisory, a.overview];
    }
    PicksMore(a.ghsa, [a.url, FirstCve(a), IdText(a), a.title, a.advisory, a.overview],
              Or(a.url, Or(FirstCve(a), rest)), v.advisory);
    assert [a.ghsa] + [a.url, FirstCve(a), IdText(a), a.title, a.advisory, a.overview]
      == [a.ghsa, a.url, FirstCve(a), IdText(a), a.title, a.advisory, a.overview];
  }

  lemma ItemNamed(item: Item, id: Scalar)
    ensures Names(item, id) <==> id in ItemIds(item)
  {
    if item.Dict? {
      PicksFive(item.ghsa, item.url, item.source, item.title, item.name, id);
    }
  }

  lemma ViaNamed(via: Via, id: Scalar)
    ensures ViaNames(via, id) <==> id in ViaIds(via)
  {
    if via.ViaList? {
      GatheredMembers(ItemIds, via.items, id);
      forall k | 0 <= k < |via.items| ensures Names(via.items[k], id) <==> id in ItemIds(via.items[k]) {
        ItemNamed(via.items[k], id);
      }
    }
  }

  /**
   * The advisories are reported first, one by one in order; whatever follows is reported for packages,
   * and for every usable identifier a package names it is.
   */
  lemma YieldsExact(audit: Audit)
    ensures var listed, ys := AdvisoriesOf(audit), Yields(audit);
      && |ys| >= |listed| && (forall k :: 0 <= k < |listed| ==> ReportedAs(listed[k], ys[k]))
      && (forall v :: v in ys[|listed|..] <==> exists p :: p in PackagesOf(audit) && PackageReportedAs(p, v))
  {
    var listed, ps, ys := AdvisoriesOf(audit), PackagesOf(audit), Yields(audit);
    assert ys == FromAdvisories(listed) + FromPackages(ps);
    assert ys[|listed|..] == FromPackages(ps);
    forall k | 0 <= k < |listed| ensures ReportedAs(listed[k], ys[k]) {
      AdvisoryReported(listed[k], ys[k]);
    }
    forall v ensures v in FromPackages(ps) <==> exists p :: p in ps && PackageReportedAs(p, v) {
      PackagesReported(ps, v);
      UsableIs(v.advisory);
      forall p: Package | p in ps ensures ViaNames(p.via, v.advisory) <==> v.advisory in ViaIds(p.via) {
        ViaNamed(p.via, v.advisory);
      }
    }
  }

  /** A vulnerability is yielded exactly when some advisory or some package is reported as it. */
  lemma YieldedIff(audit: Audit, v: Vuln)
    ensures v in Yields(audit) <==>
      || (exists a :: a in AdvisoriesOf(audit) && ReportedAs(a, v))
      || (exists p :: p in PackagesOf(audit) && PackageReportedAs(p, v))
  {
    YieldsExact(audit);
    var listed, ys := AdvisoriesOf(audit), Yields(audit);
    assert ys == ys[..|listed|] + ys[|listed|..];
    forall a | a in listed && ReportedAs(a, v) ensures v in ys {
      var k :| 0 <= k < |listed| && listed[k] == a;
      AdvisoryReported(a, v);
      AdvisoryReported(a, ys[k]);
    }
    if v in ys[..|listed|] {
      var k :| 0 <= k < |listed| && ys[k] == v;
      assert listed[k] in listed;
    }
  }

  // ----- the order of the packages ----------------------------------------------------------------

  function PackagesAlone(ps: seq<Package>): Audit {
    Audit(None, Some(ps))
  }

  /** Packages follow the advisories and each other, in order. */
  lemma YieldsInOrder(listed: Option<seq<Advisory>>, ps: seq<Package>, qs: seq<Package>)
    ensures Yields(Audit(listed, Some(ps + qs))) == Yields(Audit(listed, Some(ps))) + Yields(PackagesAlone(qs))
  {
    var first, before, after := Yields(Audit(listed, None)), FromPackages(ps), FromPackages(qs);
    YieldsAre(listed, ps + qs);
    YieldsAre(listed, ps);
    YieldsAre(None, qs);
    FromPackagesAppend(ps, qs);
    Rebracket(first, before, after);
  }

  lemma FromPackagesAppend(ps: seq<Package>, qs: seq<Package>)
    ensures FromPackages(ps + qs) == FromPackages(ps) + FromPackages(qs)
  {
    GatheredAppend(FromPackage, ps, qs);
  }

  lemma Rebracket<T>(a: seq<T>, b: seq<T>, c: seq<T>)
    ensures a + (b + c) == (a + b) + c && [] + c == c
  {
  }

  lemma YieldsAre(listed: Option<seq<Advisory>>, ps: seq<Package>)
    ensures Yields(Audit(listed, Some(ps))) == Yields(Audit(listed, None)) + FromPackages(ps)
    ensures Yields(Audit(None, None)) == []
    ensures Yields(Audit(listed, Some([]))) == Yields(Audit(listed, None))
  {
  }

  lemma VulnsAppend(p: Package, q: Package, r: Package, ids: seq<Scalar>, more: seq<Scalar>)
    requires p.name == q.name == r.name && p.severity == q.severity == r.severity
    ensures VulnsFor(p, ids + more) == VulnsFor(q, ids) + VulnsFor(r, more)
  {
  }

  /** And so do the entries of one via list. */
  lemma EntriesInOrder(name: string, severity: string, items: seq<Item>, more: seq<Item>)
    ensures Yields(PackagesAlone([Package(name, severity, ViaList(items + more))])) ==
      Yields(PackagesAlone([Package(name, severity, ViaList(items))])) +
      Yields(PackagesAlone([Package(name, severity, ViaList(more))]))
  {
    var whole := Package(name, severity, ViaList(items + more));
    var first, second := Package(name, severity, ViaList(items)), Package(name, severity, ViaList(more));
    OnePackage(whole);
    OnePackage(first);
    OnePackage(second);
    EntriesAppend(whole, first, second);
  }

  lemma EntriesAppend(whole: Package, first: Package, second: Package)
    requires whole.name == first.name == second.name && whole.severity == first.severity == second.severity
    requires first.via.ViaList? && second.via.ViaList? && whole.via == ViaList(first.via.items + second.via.items)
    ensures FromPackage(whole) == FromPackage(first) + FromPackage(second)
  {
    var ids, more := ViaIds(first.via), ViaIds(second.via);
    GatheredAppend(ItemIds, first.via.items, second.via.items);
    FilterAppend(ids, more, Truthy);
    VulnsAppend(whole, first, second, Filter(ids, Truthy), Filter(more, Truthy));
  }

  lemma OnePackage(p: Package)
    ensures Yields(PackagesAlone([p])) == FromPackage(p)
  {
    assert Gathered(FromPackage, [p]) == Gathered(FromPackage, []) + FromPackage(p);
  }

  /** An entry is reported once, if it names a usable identifier. */
  lemma OneEntry(name: string, severity: string, item: Item)
    ensures var ys := Yields(PackagesAlone([Package(name, severity, ViaList([item]))]));
      && |ys| <= 1
      && (forall id :: Usable(id) && Names(item, id) ==> ys == [Vuln(Text(name), severity, id)])
      && ((forall id :: Usable(id) ==> !Names(item, id)) ==> ys == [])
  {
    var p := Package(name, severity, ViaList([item]));
    OnePackage(p);
    assert Gathered(ItemIds, [item]) == Gathered(ItemIds, []) + ItemIds(item);
    assert Gathered(ItemIds, [item]) == ItemIds(item);
    var ids := ItemIds(item);
    if |ids| == 1 {
      assert ids == [] + [ids[0]];
      UsableIs(ids[0]);
      ItemNamed(item, ids[0]);
      assert Filter(ids, Truthy) == if Truthy(ids[0]) then [ids[0]] else [];
    }
    forall id ensures Names(item, id) <==> id in ids {
      ItemNamed(item, id);
    }
  }

  /** Without a via list there is at most the text itself. */
  lemma OneText(name: string, severity: string, s: string)
    ensures Yields(PackagesAlone([Package(name, severity, ViaText(s))])) ==
      if s == "" then [] else [Vuln(Text(name), severity, Text(s))]
    ensures Yields(PackagesAlone([Package(name, severity, ViaOther)])) == []
  {
    var p := Package(name, severity, ViaText(s));
    OnePackage(p);
    OnePackage(Package(name, severity, ViaOther));
    var ids := [Text(s)];
    assert ids[..0] == [] && Filter(ids, Truthy) == if Truthy(Text(s)) then ids else [];
    assert FromPackage(p) == VulnsFor(p, Filter(ids, Truthy));
  }

  // ----- when reading the report raises ----------------------------------------------------------

  /** The title of a via entry is a number other than 0, which cannot be joined. */
  ghost predicate BadEntry(item: Item) {
    item.Dict? && exists t :: Picks([item.title, item.url, item.advisory, item.source], t) && t.Number? && t.n != 0
  }

  lemma TitlesJoin(item: Item)
    ensures BadEntry(item) <==> !Joinable(ItemTitles(item))
  {
    if item.Dict? {
      var t := Or(item.title, Or(item.url, Or(item.advisory, item.source)));
      forall x ensures Picks([item.title, item.url, item.advisory, item.source], x) <==> x == t {
        PicksFour(item.title, item.url, item.advisory, item.source, x);
      }
      assert ItemTitles(item) == [t];
      assert t in ItemTitles(item);
    }
  }

  /** Reading raises exactly when some entry of some via list has a title that is usable but not text. */
  lemma RaisesIff(audit: Audit)
    ensures AllJoinable(PackagesOf(audit)) <==>
      forall p, item :: p in PackagesOf(audit) && p.via.ViaList? && item in p.via.items ==> !BadEntry(item)
  {
    forall p | p in PackagesOf(audit)
      ensures PackageJoinable(p) <==>
        !p.via.ViaList? || forall item :: item in p.via.items ==> !BadEntry(item)
    {
      PackageRaises(p);
    }
  }

  lemma PackageRaises(p: Package)
    ensures PackageJoinable(p) <==> !p.via.ViaList? || forall item :: item in p.via.items ==> !BadEntry(item)
  {
    if p.via.ViaList? {
      var items := p.via.items;
      forall item ensures BadEntry(item) <==> !Joinable(ItemTitles(item)) {
        TitlesJoin(item);
      }
      forall t ensures t in ViaTitles(p.via) <==> exists k :: 0 <= k < |items| && t in ItemTitles(items[k]) {
        GatheredMembers(ItemTitles, items, t);
      }
      if item :| item in items && !Joinable(ItemTitles(item)) {
        var t :| t in ItemTitles(item) && Truthy(t) && !t.Text?;
        assert t in ViaTitles(p.via);
      }
    }
  }
}
