/**
 * The product utilities: grouping by session, expiry statistics, status
 * labels and colours, the three filters, the three sorts and the
 * validation of a product draft. `today` is the current day number.
 */
module ProductUtils {
  import opened Wrappers
  import opened Text
  import opened Seqs
  import opened Sorting
  import opened Counting
  import opened ProductTypes

  const NoSession := "Sem Sessão"

  /** The group a product belongs to: its session, or the placeholder when the session is empty. */
  function SessionOf(p: Product): string {
    SessionKey(p.brand, NoSession)
  }

  function Sessions(products: seq<Product>): seq<string> {
    Map(products, SessionOf)
  }

  function InSession(k: string): Product -> bool {
    (p: Product) => SessionOf(p) == k
  }

  // ------------------------------------------------------------ grouping

  /**
   * `groupProductsBySession`: a dictionary from session to the products
   * of that session, built in one pass. `order` is the dictionary's key
   * order, which is the order in which sessions first appear.
   */
  method GroupProductsBySession(products: seq<Product>) returns (grouped: map<string, seq<Product>>, order: seq<string>)
    ensures order == Dedup(Sessions(products))
    ensures forall k :: k in grouped <==> k in order
    ensures forall k :: k in grouped ==> grouped[k] == Filter(products, InSession(k))
  {
    grouped := map[];
    order := [];
    var i := 0;
    while i < |products|
      invariant 0 <= i <= |products|
      invariant GroupedUpTo(products[..i], grouped, order)
    {
      var product := products[i];
      var session := SessionOf(product);
      PrefixStep(products, i);
      if session in grouped {
        JoinGroup(products[..i], product, grouped, order);
        grouped := grouped[session := grouped[session] + [product]];
      } else {
        NewGroup(products[..i], product, grouped, order);
        grouped := grouped[session := [product]];
        order := order + [session];
      }
      i := i + 1;
    }
    PrefixAll(products);
  }

  lemma PrefixStep<T>(s: seq<T>, i: nat)
    requires i < |s|
    ensures s[..i + 1] == s[..i] + [s[i]]
  {
  }

  lemma PrefixAll<T>(s: seq<T>)
    ensures s[..|s|] == s
  {
  }

  /** `grouped` and `order` are the dictionary built from `prefix`. */
  ghost predicate GroupedUpTo(prefix: seq<Product>, grouped: map<string, seq<Product>>, order: seq<string>) {
    && order == Dedup(Sessions(prefix))
    && (forall k :: k in grouped <==> k in order)
    && (forall k :: k in grouped ==> grouped[k] == Filter(prefix, InSession(k)))
  }

  /** A product whose session already has a group joins the end of it. */
  lemma JoinGroup(prefix: seq<Product>, product: Product, grouped: map<string, seq<Product>>, order: seq<string>)
    requires GroupedUpTo(prefix, grouped, order)
    requires SessionOf(product) in grouped
    ensures GroupedUpTo(prefix + [product], grouped[SessionOf(product) := grouped[SessionOf(product)] + [product]], order)
  {
    var session := SessionOf(product);
    var g := grouped[session := grouped[session] + [product]];
    assert session in order;
    KeyOrderStep(prefix, product);
    assert order == Dedup(Sessions(prefix + [product]));
    assert g.Keys == grouped.Keys;
    JoinGroupContents(prefix, product, grouped);
  }

  lemma JoinGroupContents(prefix: seq<Product>, product: Product, grouped: map<string, seq<Product>>)
    requires forall k :: k in grouped ==> grouped[k] == Filter(prefix, InSession(k))
    requires SessionOf(product) in grouped
    ensures forall k :: k in grouped[SessionOf(product) := grouped[SessionOf(product)] + [product]] ==>
      grouped[SessionOf(product) := grouped[SessionOf(product)] + [product]][k] == Filter(prefix + [product], InSession(k))
  {
    var session := SessionOf(product);
    forall k | k in grouped[session := grouped[session] + [product]]
      ensures grouped[session := grouped[session] + [product]][k] == Filter(prefix + [product], InSession(k))
    {
      GroupStep(prefix, product, k);
    }
  }

  /** A product with a session not seen yet opens a new group at the end of the key order. */
  lemma NewGroup(prefix: seq<Product>, product: Product, grouped: map<string, seq<Product>>, order: seq<string>)
    requires GroupedUpTo(prefix, grouped, order)
    requires SessionOf(product) !in grouped
    ensures GroupedUpTo(prefix + [product], grouped[SessionOf(product) := [product]], order + [SessionOf(product)])
  {
    var session := SessionOf(product);
    var g := grouped[session := [product]];
    assert session !in order;
    KeyOrderStep(prefix, product);
    assert order + [session] == Dedup(Sessions(prefix + [product]));
    assert g.Keys == grouped.Keys + {session};
    NewGroupContents(prefix, product, grouped);
  }

  lemma NewGroupContents(prefix: seq<Product>, product: Product, grouped: map<string, seq<Product>>)
    requires forall k :: k in grouped ==> grouped[k] == Filter(prefix, InSession(k))
    requires SessionOf(product) !in Dedup(Sessions(prefix))
    ensures forall k :: k in grouped[SessionOf(product) := [product]] ==>
      grouped[SessionOf(product) := [product]][k] == Filter(prefix + [product], InSession(k))
  {
    var session := SessionOf(product);
    forall k | k in grouped[session := [product]]
      ensures grouped[session := [product]][k] == Filter(prefix + [product], InSession(k))
    {
      GroupStep(prefix, product, k);
      if k == session {
        NewSessionEmpty(prefix, session);
      }
    }
  }

  /** One more product adds its session to the key order unless it is already there. */
  lemma KeyOrderStep(prefix: seq<Product>, product: Product)
    ensures Dedup(Sessions(prefix + [product]))
      == if SessionOf(product) in Dedup(Sessions(prefix)) then Dedup(Sessions(prefix))
         else Dedup(Sessions(prefix)) + [SessionOf(product)]
  {
    assert Sessions(prefix + [product]) == Sessions(prefix) + [SessionOf(product)];
    DedupSnoc(Sessions(prefix), SessionOf(product));
  }

  /** A session not seen yet has no products so far. */
  lemma NewSessionEmpty(prefix: seq<Product>, session: string)
    requires session !in Dedup(Sessions(prefix))
    ensures Filter(prefix, InSession(session)) == []
  {
    FilterCountIsOcc(prefix, InSession(session), SessionOf, session);
    OccPositive(Sessions(prefix), session);
    DedupMembership(Sessions(prefix), session);
  }

  /** One more product joins the group of its own session and no other. */
  lemma GroupStep(prefix: seq<Product>, product: Product, k: string)
    ensures Filter(prefix + [product], InSession(k))
      == Filter(prefix, InSession(k)) + (if SessionOf(product) == k then [product] else [])
  {
    FilterAppend(prefix, [product], InSession(k));
  }

  /** The size of every group, in key order. */
  function GroupSizes(products: seq<Product>): seq<(string, nat)> {
    var keys := Dedup(Sessions(products));
    seq(|keys|, i requires 0 <= i < |keys| => (keys[i], |Filter(products, InSession(keys[i]))|))
  }

  /**
   * Every product is in exactly one group, so the group sizes sum to the
   * number of products, and every group holds at least one product.
   */
  lemma GroupSizesPartition(products: seq<Product>)
    ensures SumCounts(GroupSizes(products)) == |products|
    ensures forall i :: 0 <= i < |GroupSizes(products)| ==> GroupSizes(products)[i].1 >= 1
  {
    var s := Sessions(products);
    var sizes := GroupSizes(products);
    TallyEntries(s);
    TallyCountsPositive(s);
    assert |Tally(s)| == |Dedup(s)|;
    forall i | 0 <= i < |sizes| ensures sizes[i] == Tally(s)[i] {
      FilterCountIsOcc(products, InSession(sizes[i].0), SessionOf, sizes[i].0);
    }
    assert sizes == Tally(s);
  }

  /**
   * A product is in the group of key `k` exactly when its session (or the
   * placeholder) is `k`; groups keep the input order.
   */
  lemma GroupMembership(products: seq<Product>, k: string, p: Product)
    ensures p in Filter(products, InSession(k)) <==> p in products && SessionOf(p) == k
    ensures IsSubsequence(Filter(products, InSession(k)), products)
  {
    FilterMembership(products, InSession(k), p);
    FilterIsSubsequence(products, InSession(k));
  }

  // ---------------------------------------------------------- statistics

  datatype ProductStats = ProductStats(total: nat, vencidos: nat, vencendo: nat)

  function IsExpiredOn(today: int): Product -> bool {
    (p: Product) => DaysUntilExpiry(p, today) < 0
  }

  function IsExpiringOn(today: int): Product -> bool {
    (p: Product) => 0 <= DaysUntilExpiry(p, today) <= 7
  }

  /**
   * `calculateProductStats`: the number of products, of expired ones and
   * of ones expiring within seven days.
   */
  method CalculateProductStats(products: seq<Product>, today: int) returns (stats: ProductStats)
    ensures stats.total == |products|
    ensures stats.vencidos == |Filter(products, IsExpiredOn(today))|
    ensures stats.vencendo == |Filter(products, IsExpiringOn(today))|
  {
    stats := ProductStats(|products|, 0, 0);
    var i := 0;
    while i < |products|
      invariant 0 <= i <= |products|
      invariant stats.total == |products|
      invariant stats.vencidos == |Filter(products[..i], IsExpiredOn(today))|
      invariant stats.vencendo == |Filter(products[..i], IsExpiringOn(today))|
    {
      var days := DaysUntilExpiry(products[i], today);
      assert products[..i + 1] == products[..i] + [products[i]];
      FilterAppend(products[..i], [products[i]], IsExpiredOn(today));
      FilterAppend(products[..i], [products[i]], IsExpiringOn(today));
      if days < 0 {
        stats := stats.(vencidos := stats.vencidos + 1);
      } else if days >= 0 && days <= 7 {
        stats := stats.(vencendo := stats.vencendo + 1);
      }
      i := i + 1;
    }
    assert products[..i] == products;
  }

  function IsExpiredOrExpiringOn(today: int): Product -> bool {
    (p: Product) => DaysUntilExpiry(p, today) <= 7
  }

  /**
   * No product is both expired and expiring, so the two counts together
   * are the products within seven days and never exceed the total.
   */
  lemma StatsBound(products: seq<Product>, today: int)
    ensures |Filter(products, IsExpiredOn(today))| + |Filter(products, IsExpiringOn(today))|
         == |Filter(products, IsExpiredOrExpiringOn(today))|
    ensures |Filter(products, IsExpiredOn(today))| + |Filter(products, IsExpiringOn(today))| <= |products|
  {
    FilterDisjointCount(products, IsExpiredOn(today), IsExpiringOn(today), IsExpiredOrExpiringOn(today));
  }

  // -------------------------------------------------- labels and colours

  const ExpiredColor := "bg-red-600 text-white"
  const ExpiringColor := "bg-orange-500 text-white"
  const FirstMarkdownColor := "bg-warning-500 text-white"
  const SecondMarkdownColor := "bg-danger-500 text-white"
  const OkColor := "bg-success-600 text-white"

  /** `getStatusColor`; the status argument is optional. */
  function StatusColor(days: int, status: Option<string>): string {
    if days < 0 then ExpiredColor
    else if days <= 7 then ExpiringColor
    else if status == Some(FirstMarkdown) then FirstMarkdownColor
    else if status == Some(SecondMarkdown) then SecondMarkdownColor
    else OkColor
  }

  /** `getStatusLabel`: the day count decides first, the stored status only after a week. */
  function StatusLabel(days: int, status: string): (r: string)
    ensures r == "Vencido" <==> days < 0
    ensures r == "Vencendo" <==> 0 <= days <= 7
    ensures r == "R1" <==> days > 7 && status == FirstMarkdown
    ensures r == "R2" <==> days > 7 && status == SecondMarkdown
    ensures r == "OK" <==> days > 7 && status != FirstMarkdown && status != SecondMarkdown
  {
    if days < 0 then "Vencido"
    else if days <= 7 then "Vencendo"
    else if status == FirstMarkdown then "R1"
    else if status == SecondMarkdown then "R2"
    else "OK"
  }

  /** The colour that goes with each label. */
  function LabelColor(statusLabel: string): string {
    if statusLabel == "Vencido" then ExpiredColor
    else if statusLabel == "Vencendo" then ExpiringColor
    else if statusLabel == "R1" then FirstMarkdownColor
    else if statusLabel == "R2" then SecondMarkdownColor
    else OkColor
  }

  /**
   * The label and the colour always agree, and within a week of expiry
   * (or after it) neither depends on the stored status.
   */
  lemma LabelAndColorAgree(days: int, status: string, other: string)
    ensures StatusColor(days, Some(status)) == LabelColor(StatusLabel(days, status))
    ensures days <= 7 ==> StatusLabel(days, status) == StatusLabel(days, other)
    ensures days <= 7 ==> StatusColor(days, Some(status)) == StatusColor(days, None)
  {
  }

  // ------------------------------------------------------------- filters

  function MatchesSearch(term: string): Product -> bool {
    (p: Product) =>
      || Contains(ToLower(p.name), term)
      || (p.barcode.Some? && Contains(ToLower(p.barcode.value), term))
      || Contains(ToLower(p.brand), term)
  }

  /**
   * `filterProductsBySearch`: a blank term keeps the list; otherwise the
   * lower-cased (untrimmed) term is looked up in name, barcode and session.
   */
  function FilterProductsBySearch(products: seq<Product>, searchTerm: string): (r: seq<Product>)
    ensures Trim(searchTerm) == [] ==> r == products
    ensures IsSubsequence(r, products)
    ensures Trim(searchTerm) != [] ==> forall p ::
      p in r <==> p in products && MatchesSearch(ToLower(searchTerm))(p)
  {
    if Trim(searchTerm) == [] then
      SubsequenceRefl(products);
      products
    else
      var term := ToLower(searchTerm);
      FilterIsSubsequence(products, MatchesSearch(term));
      FilterKeeps(products, MatchesSearch(term));
      Filter(products, MatchesSearch(term))
  }

  function HasStatus(status: string): Product -> bool {
    (p: Product) => p.status == status
  }

  /**
   * `filterProductsByStatus`: 'all' keeps everything, 'vencido' and
   * 'vencendo' select by day count, any other value by stored status.
   */
  function FilterProductsByStatus(products: seq<Product>, statusFilter: string, today: int): (r: seq<Product>)
    ensures statusFilter == "all" ==> r == products
    ensures IsSubsequence(r, products)
    ensures statusFilter == "vencido" ==> forall p ::
      p in r <==> p in products && DaysUntilExpiry(p, today) < 0
    ensures statusFilter == "vencendo" ==> forall p ::
      p in r <==> p in products && 0 <= DaysUntilExpiry(p, today) <= 7
    ensures statusFilter !in {"all", "vencido", "vencendo"} ==> forall p ::
      p in r <==> p in products && p.status == statusFilter
  {
    if statusFilter == "all" then
      SubsequenceRefl(products);
      products
    else
      var keep := if statusFilter == "vencido" then IsExpiredOn(today)
                  else if statusFilter == "vencendo" then IsExpiringOn(today)
                  else HasStatus(statusFilter);
      FilterIsSubsequence(products, keep);
      FilterKeeps(products, keep);
      Filter(products, keep)
  }

  function HasBrand(brand: string): Product -> bool {
    (p: Product) => p.brand == brand
  }

  /** `filterProductsBySession`: matches the stored session exactly (no placeholder). */
  function FilterProductsBySession(products: seq<Product>, sessionFilter: string): (r: seq<Product>)
    ensures sessionFilter == "all" ==> r == products
    ensures IsSubsequence(r, products)
    ensures sessionFilter != "all" ==> forall p :: p in r <==> p in products && p.brand == sessionFilter
  {
    if sessionFilter == "all" then
      SubsequenceRefl(products);
      products
    else
      FilterIsSubsequence(products, HasBrand(sessionFilter));
      FilterKeeps(products, HasBrand(sessionFilter));
      Filter(products, HasBrand(sessionFilter))
  }

  // --------------------------------------------------------------- sorts

  function ExpiryKey(p: Product): int {
    DayNumber(p.expiry)
  }

  /** `dateA - dateB <= 0`: earlier expiry first. */
  function ExpiryLe(a: Product, b: Product): bool {
    ExpiryKey(a) <= ExpiryKey(b)
  }

  /**
   * `sortProductsByExpiry`: a sorted copy, earliest expiry first, keeping
   * the input order among products expiring the same day.
   */
  function SortProductsByExpiry(products: seq<Product>): (r: seq<Product>)
    ensures multiset(r) == multiset(products)
    ensures SortedBy(r, ExpiryLe)
    ensures forall e :: ClassOf(r, e, ExpiryLe) == ClassOf(products, e, ExpiryLe)
  {
    KeyOrderIsTotalPreorder(ExpiryKey, ExpiryLe, false);
    SortByOrderedAndStable(products, ExpiryLe);
    SortBy(products, ExpiryLe)
  }

  /** `localeCompare` on a product field, read as "not after". */
  function FieldLe(collate: (string, string) -> bool, byName: bool): (Product, Product) -> bool {
    (a: Product, b: Product) => if byName then collate(a.name, b.name) else collate(a.brand, b.brand)
  }

  lemma FieldLeIsTotalPreorder(collate: (string, string) -> bool, byName: bool)
    requires IsTotalPreorder(collate)
    ensures IsTotalPreorder(FieldLe(collate, byName))
  {
    var le := FieldLe(collate, byName);
    forall a, b ensures le(a, b) || le(b, a) {
      if byName {
        assert collate(a.name, b.name) || collate(b.name, a.name);
      } else {
        assert collate(a.brand, b.brand) || collate(b.brand, a.brand);
      }
    }
    forall a, b, c | le(a, b) && le(b, c) ensures le(a, c) {
      if byName {
        assert collate(a.name, b.name) && collate(b.name, c.name);
      } else {
        assert collate(a.brand, b.brand) && collate(b.brand, c.brand);
      }
    }
  }

  /**
   * `sortProductsByName`: a permutation of the input; when the collation
   * is a total preorder it is ordered by name and stable.
   */
  function SortProductsByName(products: seq<Product>, collate: (string, string) -> bool): (r: seq<Product>)
    ensures multiset(r) == multiset(products)
    ensures IsTotalPreorder(collate) ==> SortedBy(r, FieldLe(collate, true))
    ensures IsTotalPreorder(collate) ==>
      forall e :: ClassOf(r, e, FieldLe(collate, true)) == ClassOf(products, e, FieldLe(collate, true))
  {
    SortProductsByField(products, collate, true)
  }

  /** `sortProductsBySession`: as `SortProductsByName`, on the session field. */
  function SortProductsBySession(products: seq<Product>, collate: (string, string) -> bool): (r: seq<Product>)
    ensures multiset(r) == multiset(products)
    ensures IsTotalPreorder(collate) ==> SortedBy(r, FieldLe(collate, false))
    ensures IsTotalPreorder(collate) ==>
      forall e :: ClassOf(r, e, FieldLe(collate, false)) == ClassOf(products, e, FieldLe(collate, false))
  {
    SortProductsByField(products, collate, false)
  }

  function SortProductsByField(products: seq<Product>, collate: (string, string) -> bool, byName: bool): (r: seq<Product>)
    ensures multiset(r) == multiset(products)
    ensures IsTotalPreorder(collate) ==> SortedBy(r, FieldLe(collate, byName))
    ensures IsTotalPreorder(collate) ==>
      forall e :: ClassOf(r, e, FieldLe(collate, byName)) == ClassOf(products, e, FieldLe(collate, byName))
  {
    FieldSortOrderedAndStable(products, collate, byName);
    SortBy(products, FieldLe(collate, byName))
  }

  lemma FieldSortOrderedAndStable(products: seq<Product>, collate: (string, string) -> bool, byName: bool)
    ensures IsTotalPreorder(collate) ==> SortedBy(SortBy(products, FieldLe(collate, byName)), FieldLe(collate, byName))
    ensures IsTotalPreorder(collate) ==> forall e ::
      ClassOf(SortBy(products, FieldLe(collate, byName)), e, FieldLe(collate, byName))
      == ClassOf(products, e, FieldLe(collate, byName))
  {
    if IsTotalPreorder(collate) {
      FieldLeIsTotalPreorder(collate, byName);
      SortByOrderedAndStable(products, FieldLe(collate, byName));
    }
  }

  // ---------------------------------------------------------- validation

  /** The fields of a `Partial<Product>` that validation reads; `None` is an absent field. */
  datatype ProductDraft = ProductDraft(
    name: Option<string>, brand: Option<string>, expiry: Option<string>, quantity: Option<int>)

  /** The four checks of `validateProductData`, in the order they run. */
  datatype Check = NameCheck | SessionCheck | DateCheck | QuantityCheck

  /** The position of a check in the order the checks run. */
  function Rank(check: Check): nat {
    match check
    case NameCheck => 0
    case SessionCheck => 1
    case DateCheck => 2
    case QuantityCheck => 3
  }

  /** The message a failed check reports. */
  function Message(check: Check): string {
    match check
    case NameCheck => "Nome do produto é obrigatório"
    case SessionCheck => "Sessão é obrigatória"
    case DateCheck => "Data de validade é obrigatória"
    case QuantityCheck => "Quantidade deve ser maior que zero"
  }

  /** A text field is filled when present and not blank. */
  predicate Filled(field: Option<string>) {
    field.Some? && Trim(field.value) != []
  }

  /** Whether `check` rejects `data`; `!quantity` rejects 0 as `< 1` does. */
  predicate Fails(data: ProductDraft, check: Check) {
    match check
    case NameCheck => !Filled(data.name)
    case SessionCheck => !Filled(data.brand)
    case DateCheck => data.expiry.None? || data.expiry.value == []
    case QuantityCheck => data.quantity.None? || data.quantity.value < 1
  }

  function FailsOn(data: ProductDraft): Check -> bool {
    (check: Check) => Fails(data, check)
  }

  /** `check` when the predicate says it fails, nothing otherwise. */
  function IfFails(fails: Check -> bool, check: Check): seq<Check> {
    if fails(check) then [check] else []
  }

  /** The checks that fail, in the order the checks run. */
  function FailedChecks(fails: Check -> bool): seq<Check> {
    IfFails(fails, NameCheck) + IfFails(fails, SessionCheck) + IfFails(fails, DateCheck) + IfFails(fails, QuantityCheck)
  }

  /**
   * `validateProductData`: one message per failed check, in the order
   * name, session, date, quantity.
   */
  method ValidateProductData(data: ProductDraft) returns (errors: seq<string>)
    ensures errors == Map(FailedChecks(FailsOn(data)), Message)
  {
    ghost var fails := FailsOn(data);
    FailsOnChecks(data);
    ghost var failed: seq<Check> := [];
    errors := [];
    assert failed + IfFails(fails, NameCheck) == IfFails(fails, NameCheck);
    var nameMissing := data.name.None? || Trim(data.name.value) == [];
    ReportStep(errors, failed, fails, NameCheck, nameMissing);
    if nameMissing {
      errors := errors + [Message(NameCheck)];
    }
    failed := IfFails(fails, NameCheck);
    var sessionMissing := data.brand.None? || Trim(data.brand.value) == [];
    ReportStep(errors, failed, fails, SessionCheck, sessionMissing);
    if sessionMissing {
      errors := errors + [Message(SessionCheck)];
    }
    failed := failed + IfFails(fails, SessionCheck);
    var dateMissing := data.expiry.None? || data.expiry.value == [];
    ReportStep(errors, failed, fails, DateCheck, dateMissing);
    if dateMissing {
      errors := errors + [Message(DateCheck)];
    }
    failed := failed + IfFails(fails, DateCheck);
    var quantityMissing := data.quantity.None? || data.quantity.value == 0 || data.quantity.value < 1;
    ReportStep(errors, failed, fails, QuantityCheck, quantityMissing);
    if quantityMissing {
      errors := errors + [Message(QuantityCheck)];
    }
    failed := failed + IfFails(fails, QuantityCheck);
    assert failed == FailedChecks(fails);
  }

  lemma FailsOnChecks(data: ProductDraft)
    ensures FailsOn(data)(NameCheck) == (data.name.None? || Trim(data.name.value) == [])
    ensures FailsOn(data)(SessionCheck) == (data.brand.None? || Trim(data.brand.value) == [])
    ensures FailsOn(data)(DateCheck) == (data.expiry.None? || data.expiry.value == [])
    ensures FailsOn(data)(QuantityCheck) == (data.quantity.None? || data.quantity.value == 0 || data.quantity.value < 1)
  {
  }

  /** One check of `ValidateProductData`: the report grows by the check's message exactly when it fails. */
  lemma ReportStep(errors: seq<string>, failed: seq<Check>, fails: Check -> bool, check: Check, missing: bool)
    requires errors == Map(failed, Message)
    requires missing == fails(check)
    ensures (if missing then errors + [Message(check)] else errors) == Map(failed + IfFails(fails, check), Message)
  {
    if missing {
      MapSnoc(failed, check, Message);
    } else {
      assert failed + IfFails(fails, check) == failed;
    }
  }

  /** A check is reported exactly when it fails. */
  lemma FailedChecksMembership(fails: Check -> bool)
    ensures forall c :: c in FailedChecks(fails) <==> fails(c)
  {
    forall c
      ensures c in FailedChecks(fails) <==> fails(c)
    {
      assert c in IfFails(fails, c) <==> fails(c);
      assert c.NameCheck? || c.SessionCheck? || c.DateCheck? || c.QuantityCheck?;
    }
  }

  /** The failed checks come in the order the checks run, each at most once. */
  lemma FailedChecksOrdered(fails: Check -> bool)
    ensures forall i, j :: 0 <= i < j < |FailedChecks(fails)| ==> Rank(FailedChecks(fails)[i]) < Rank(FailedChecks(fails)[j])
  {
  }

  /** The first letter of each message, which already tells the messages apart. */
  function Initial(check: Check): char {
    match check
    case NameCheck => 'N'
    case SessionCheck => 'S'
    case DateCheck => 'D'
    case QuantityCheck => 'Q'
  }

  lemma MessageInitial(check: Check)
    ensures |Message(check)| > 0 && Message(check)[0] == Initial(check)
  {
  }

  /** Different checks report different messages, so each message names its check. */
  lemma MessageInjective(c: Check, d: Check)
    ensures Message(c) == Message(d) <==> c == d
  {
    MessageInitial(c);
    MessageInitial(d);
  }

  /** The report carries a check's message exactly when that check fails. */
  lemma ReportNamesFailures(fails: Check -> bool, check: Check)
    ensures Message(check) in Map(FailedChecks(fails), Message) <==> fails(check)
  {
    forall c: Check, d: Check | Message(c) == Message(d)
      ensures c == d
    {
      MessageInjective(c, d);
    }
    MapInjectiveMembership(FailedChecks(fails), Message, check);
    FailedChecksMembership(fails);
  }

  /** The report of `validateProductData` is empty exactly when every check passes. */
  lemma ValidationReportEmpty(data: ProductDraft)
    ensures Map(FailedChecks(FailsOn(data)), Message) == [] <==>
      Filled(data.name) && Filled(data.brand) && data.expiry.Some? && data.expiry.value != [] &&
      data.quantity.Some? && data.quantity.value >= 1
  {
    var fails := FailsOn(data);
    assert |Map(FailedChecks(fails), Message)| == |FailedChecks(fails)|;
    assert FailedChecks(fails) == [] <==> !fails(NameCheck) && !fails(SessionCheck) && !fails(DateCheck) && !fails(QuantityCheck);
  }
}
