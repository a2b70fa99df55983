/**
 * The priority report: each product is classified by the days left
 * before it expires, the classified list is split into three buckets
 * sorted by days left, and the printed report holds a summary and one
 * table section per non-empty bucket. Only the content of the report is
 * modelled, not its page layout.
 */
module EnhancedReport {
  import opened Wrappers
  import opened Text
  import opened Seqs
  import opened Sorting
  import opened ProductTypes

  datatype Priority = Critical | Warning | Ok

  const ExpiredLabel := "🔴 VENCIDO"
  const CriticalLabel := "🔴 CRÍTICO"
  const WarningLabel := "🟡 ATENÇÃO"
  const OkLabel := "🟢 OK"

  /** A product with its day count and priority: the spread `{ ...p, daysRemaining, priority, priorityLabel }`. */
  datatype PrioritizedProduct = PrioritizedProduct(
    product: Product, daysRemaining: int, priority: Priority, priorityLabel: string)

  /** The priority for a day count: critical up to a week (expired included), warning up to 15 days, ok after. */
  function PriorityOf(days: int): Priority {
    if days <= 7 then Critical else if days <= 15 then Warning else Ok
  }

  /** The label for a day count; expired products get their own critical label. */
  function LabelOf(days: int): string {
    if days < 0 then ExpiredLabel
    else if days <= 7 then CriticalLabel
    else if days <= 15 then WarningLabel
    else OkLabel
  }

  /** The four day bands and what each is classified as; every day count falls in exactly one band. */
  lemma ClassificationBands(days: int)
    ensures days < 0 ==> PriorityOf(days) == Critical && LabelOf(days) == ExpiredLabel
    ensures 0 <= days <= 7 ==> PriorityOf(days) == Critical && LabelOf(days) == CriticalLabel
    ensures 8 <= days <= 15 ==> PriorityOf(days) == Warning && LabelOf(days) == WarningLabel
    ensures 15 < days ==> PriorityOf(days) == Ok && LabelOf(days) == OkLabel
    ensures PriorityOf(days) == Critical <==> days <= 7
    ensures PriorityOf(days) == Warning <==> 8 <= days <= 15
    ensures PriorityOf(days) == Ok <==> 15 < days
  {
  }

  /** How urgent a priority is: lower is more urgent. */
  function Urgency(p: Priority): nat {
    match p
    case Critical => 0
    case Warning => 1
    case Ok => 2
  }

  /** Fewer days left never means a less urgent priority. */
  lemma PriorityMonotone(d1: int, d2: int)
    requires d1 <= d2
    ensures Urgency(PriorityOf(d1)) <= Urgency(PriorityOf(d2))
  {
  }

  function Classify(today: int): Product -> PrioritizedProduct {
    (p: Product) =>
      var days := DaysUntilExpiry(p, today);
      PrioritizedProduct(p, days, PriorityOf(days), LabelOf(days))
  }

  /**
   * `classifyProducts`: one entry per product, in the same order, holding
   * the product unchanged, its day count and the priority and label of
   * that day count.
   */
  function ClassifyProducts(products: seq<Product>, today: int): (r: seq<PrioritizedProduct>)
    ensures |r| == |products|
    ensures forall i :: 0 <= i < |r| ==>
      && r[i].product == products[i]
      && r[i].daysRemaining == DaysUntilExpiry(products[i], today)
      && r[i].priority == PriorityOf(r[i].daysRemaining)
      && r[i].priorityLabel == LabelOf(r[i].daysRemaining)
  {
    Map(products, Classify(today))
  }

  /** `(a, b) => a.daysRemaining - b.daysRemaining`, read as "not after". */
  function DaysLe(a: PrioritizedProduct, b: PrioritizedProduct): bool {
    a.daysRemaining <= b.daysRemaining
  }

  function HasPriority(priority: Priority): PrioritizedProduct -> bool {
    (p: PrioritizedProduct) => p.priority == priority
  }

  datatype Buckets = Buckets(critical: seq<PrioritizedProduct>, warning: seq<PrioritizedProduct>, ok: seq<PrioritizedProduct>)

  /** The items of one priority, sorted by days left, keeping input order on equal days. */
  function Bucket(items: seq<PrioritizedProduct>, priority: Priority): (r: seq<PrioritizedProduct>)
    ensures multiset(r) == multiset(Filter(items, HasPriority(priority)))
    ensures forall x :: x in r <==> x in items && x.priority == priority
    ensures SortedBy(r, DaysLe)
    ensures forall e :: ClassOf(r, e, DaysLe) == ClassOf(Filter(items, HasPriority(priority)), e, DaysLe)
  {
    var kept := Filter(items, HasPriority(priority));
    FilterKeeps(items, HasPriority(priority));
    KeyOrderIsTotalPreorder((p: PrioritizedProduct) => p.daysRemaining, DaysLe, false);
    SortByOrderedAndStable(kept, DaysLe);
    var r := SortBy(kept, DaysLe);
    assert forall x :: x in r <==> x in kept by {
      forall x ensures x in r <==> x in kept {
        assert x in r <==> x in multiset(r);
      }
    }
    r
  }

  /** `groupByPriority`: the three buckets. */
  function GroupByPriority(items: seq<PrioritizedProduct>): Buckets {
    Buckets(Bucket(items, Critical), Bucket(items, Warning), Bucket(items, Ok))
  }

  /** The buckets share out the input: each item is in the bucket of its priority only, and the sizes add up. */
  lemma GroupByPriorityPartition(items: seq<PrioritizedProduct>)
    ensures var b := GroupByPriority(items);
      |b.critical| + |b.warning| + |b.ok| == |items|
    ensures var b := GroupByPriority(items);
      forall x :: x in items ==>
        (x in b.critical <==> x.priority == Critical) &&
        (x in b.warning <==> x.priority == Warning) &&
        (x in b.ok <==> x.priority == Ok)
  {
    FilterPartition3(items, HasPriority(Critical), HasPriority(Warning), HasPriority(Ok));
  }

  // ------------------------------------------------------------- tables

  const ActionBox := "☐ ___"
  const Blank := "___"

  /** The column headers of a section; the critical section adds two action columns. */
  function Headers(withAction: bool): (r: seq<string>)
    ensures |r| == if withAction then 8 else 6
  {
    ["Cód.", "Produto", "Sessão", "Val.", "Dias", "Qtd"] + (if withAction then ["Ação", "Resp."] else [])
  }

  /** `p.barcode || fallback`: a missing or empty barcode shows the fallback. */
  function BarcodeOr(barcode: Option<string>, fallback: string): string {
    if barcode.Some? && barcode.value != "" then barcode.value else fallback
  }

  /** `format(date, 'dd/MM')`. */
  function DayMonth(d: Date): string {
    PadNat(d.day, 2) + "/" + PadNat(d.month, 2)
  }

  /** The days cell: 'X' once expired, else the number. */
  function DaysCell(days: int): string {
    if days < 0 then "X" else IntToString(days)
  }

  /** One table row of a section. */
  function Row(item: PrioritizedProduct, withAction: bool): (r: seq<string>)
    ensures |r| == |Headers(withAction)|
    ensures r[0] == BarcodeOr(item.product.barcode, "—") && r[1] == item.product.name && r[2] == item.product.brand
    ensures r[3] == DayMonth(item.product.expiry)
    ensures r[4] == DaysCell(item.daysRemaining) && r[5] == IntToString(item.product.quantity)
    ensures withAction ==> r[6] == ActionBox && r[7] == Blank
  {
    var p := item.product;
    [BarcodeOr(p.barcode, "—"), p.name, p.brand, DayMonth(p.expiry), DaysCell(item.daysRemaining), IntToString(p.quantity)]
      + (if withAction then [ActionBox, Blank] else [])
  }

  /** The days cell never shows a negative number: expired products are marked instead. */
  lemma DaysCellNeverNegative(days: int)
    ensures DaysCell(days) == "X" <==> days < 0
    ensures days >= 0 ==> AllDigits(DaysCell(days))
  {
    if days >= 0 {
      assert DaysCell(days)[0] != 'X';
    }
  }

  datatype Section = Section(title: string, headers: seq<string>, rows: seq<seq<string>>)

  const CriticalTitle := "🔴 CRÍTICO - AÇÃO IMEDIATA"
  const WarningTitle := "🟡 ATENÇÃO - MONITORAR"
  const OkTitle := "🟢 OK - ESTOQUE NORMAL"

  function RowOf(withAction: bool): PrioritizedProduct -> seq<string> {
    (item: PrioritizedProduct) => Row(item, withAction)
  }

  /** `addSection`: the title, the headers and one row per product of the bucket. */
  function MakeSection(title: string, items: seq<PrioritizedProduct>, withAction: bool): (r: Section)
    ensures r.title == title && r.headers == Headers(withAction) && |r.rows| == |items|
    ensures forall i :: 0 <= i < |items| ==> r.rows[i] == Row(items[i], withAction)
  {
    Section(title, Headers(withAction), Map(items, RowOf(withAction)))
  }

  function SectionIf(title: string, items: seq<PrioritizedProduct>, withAction: bool): seq<Section> {
    if |items| > 0 then [MakeSection(title, items, withAction)] else []
  }

  /** The sections of the report: one per non-empty bucket, critical first, then warning, then ok. */
  function Sections(b: Buckets): seq<Section> {
    SectionIf(CriticalTitle, b.critical, true) + SectionIf(WarningTitle, b.warning, false) + SectionIf(OkTitle, b.ok, false)
  }

  function RowCount(sections: seq<Section>): nat {
    if sections == [] then 0 else |sections[0].rows| + RowCount(sections[1..])
  }

  lemma {:induction false} RowCountAppend(a: seq<Section>, b: seq<Section>)
    ensures RowCount(a + b) == RowCount(a) + RowCount(b)
  {
    if a == [] {
      assert a + b == b;
    } else {
      assert (a + b)[1..] == a[1..] + b;
      RowCountAppend(a[1..], b);
    }
  }

  /** The section of one bucket: present exactly when the bucket is not empty, with one row per item. */
  lemma SectionIfShape(title: string, items: seq<PrioritizedProduct>, withAction: bool)
    ensures |SectionIf(title, items, withAction)| == Present(items)
    ensures |items| > 0 ==> SectionIf(title, items, withAction)[0] == MakeSection(title, items, withAction)
    ensures forall i :: 0 <= i < |SectionIf(title, items, withAction)| ==> |SectionIf(title, items, withAction)[i].rows| > 0
    ensures RowCount(SectionIf(title, items, withAction)) == |items|
  {
    if |items| > 0 {
      assert SectionIf(title, items, withAction)[1..] == [];
    }
  }

  /** 1 for a non-empty bucket, 0 for an empty one. */
  function Present(items: seq<PrioritizedProduct>): nat {
    if |items| > 0 then 1 else 0
  }

  /**
   * Only non-empty buckets get a section, always in the order critical,
   * warning, ok: each present bucket's section sits right after those of
   * the more urgent present buckets, carries its own title and headers
   * and holds one row per item of that bucket. No section is empty, and
   * the sections hold one row per bucketed item.
   */
  lemma SectionsShape(b: Buckets)
    ensures |Sections(b)| == Present(b.critical) + Present(b.warning) + Present(b.ok)
    ensures |b.critical| > 0 ==> Sections(b)[0] == MakeSection(CriticalTitle, b.critical, true)
    ensures |b.warning| > 0 ==> Sections(b)[Present(b.critical)] == MakeSection(WarningTitle, b.warning, false)
    ensures |b.ok| > 0 ==> Sections(b)[Present(b.critical) + Present(b.warning)] == MakeSection(OkTitle, b.ok, false)
    ensures forall i :: 0 <= i < |Sections(b)| ==> |Sections(b)[i].rows| > 0
    ensures RowCount(Sections(b)) == |b.critical| + |b.warning| + |b.ok|
  {
    var c := SectionIf(CriticalTitle, b.critical, true);
    var w := SectionIf(WarningTitle, b.warning, false);
    var o := SectionIf(OkTitle, b.ok, false);
    SectionIfShape(CriticalTitle, b.critical, true);
    SectionIfShape(WarningTitle, b.warning, false);
    SectionIfShape(OkTitle, b.ok, false);
    AppendThree(c, w, o);
    RowCountAppend(c, w);
    RowCountAppend(c + w, o);
  }

  /** Where the parts of `a + b + c` sit. */
  lemma AppendThree<T>(a: seq<T>, b: seq<T>, c: seq<T>)
    ensures |a + b + c| == |a| + |b| + |c|
    ensures forall i :: 0 <= i < |a| ==> (a + b + c)[i] == a[i]
    ensures forall i :: 0 <= i < |b| ==> (a + b + c)[|a| + i] == b[i]
    ensures forall i :: 0 <= i < |c| ==> (a + b + c)[|a| + |b| + i] == c[i]
  {
  }

  /** Every product of the report appears in exactly one row of one section. */
  lemma ReportCoversProducts(products: seq<Product>, today: int)
    ensures RowCount(EnhancedReport(products, today).sections) == |products|
  {
    var b := GroupByPriority(ClassifyProducts(products, today));
    GroupByPriorityPartition(ClassifyProducts(products, today));
    SectionsShape(b);
  }

  /** The executive summary: total and per-bucket counts. */
  function Summary(products: seq<Product>, b: Buckets): seq<string> {
    [ "Total de Produtos: " + NatToString(|products|),
      "🔴 CRÍTICO (0-7 dias): " + NatToString(|b.critical|),
      "🟡 ATENÇÃO (8-15 dias): " + NatToString(|b.warning|),
      "🟢 OK (+15 dias): " + NatToString(|b.ok|) ]
  }

  /** The report content of `exportEnhancedPDF`: summary, then the sections. */
  datatype Report = Report(summary: seq<string>, sections: seq<Section>)

  function EnhancedReport(products: seq<Product>, today: int): Report {
    var b := GroupByPriority(ClassifyProducts(products, today));
    Report(Summary(products, b), Sections(b))
  }

  /**
   * The critical count of the summary includes expired products: it is
   * the number of products with at most 7 days left, negative counts
   * included, though its caption reads 0-7 days.
   */
  lemma CriticalCountIncludesExpired(products: seq<Product>, today: int)
    ensures |GroupByPriority(ClassifyProducts(products, today)).critical|
      == |Filter(products, (p: Product) => DaysUntilExpiry(p, today) <= 7)|
  {
    var items := ClassifyProducts(products, today);
    FilterMapCount(products, Classify(today), HasPriority(Critical), (p: Product) => DaysUntilExpiry(p, today) <= 7);
  }

  /** Filtering after a map keeps as many elements as filtering before it by the composed predicate. */
  lemma {:induction false} FilterMapCount<T, U>(s: seq<T>, m: T -> U, f: U -> bool, g: T -> bool)
    requires forall x :: g(x) == f(m(x))
    ensures |Filter(Map(s, m), f)| == |Filter(s, g)|
  {
    if s != [] {
      FilterMapCount(s[1..], m, f, g);
      assert Map(s, m)[1..] == Map(s[1..], m);
    }
  }
}
