/**
 * The local logic of the "new product" page: the Levenshtein table and the
 * fuzzy dictionary lookup behind the spelling corrector, the per-word
 * correction step, the keyword-counting session suggester, the submit
 * guard and the quantity input's change handler.
 */
module NewProduct {
  import opened Wrappers
  import opened Text
  import opened Seqs

  // ------------------------------------------------------------ edit distance

  function Min3(a: nat, b: nat, c: nat): (r: nat)
    ensures r <= a && r <= b && r <= c
    ensures r == a || r == b || r == c
  {
    if a <= b && a <= c then a else if b <= c then b else c
  }

  /** A substitution costs one, unless the character stays the same. */
  function SubstitutionCost(x: char, y: char): nat {
    if x == y then 0 else 1
  }

  /** The last character removed. */
  function Init(s: string): string
    requires s != []
  {
    s[..|s| - 1]
  }

  /**
   * The unit-cost edit distance from `a` to `b`: the fewest single-character
   * deletions, insertions and substitutions turning `a` into `b`, by the
   * textbook recurrence on the last characters (a substitution of equal
   * characters is free).
   */
  function EditDistance(a: string, b: string): nat
    decreases |a| + |b|
  {
    if a == [] then |b|
    else if b == [] then |a|
    else
      Min3(EditDistance(Init(a), Init(b)) + SubstitutionCost(a[|a| - 1], b[|b| - 1]),
           EditDistance(a, Init(b)) + 1,
           EditDistance(Init(a), b) + 1)
  }

  /** Dropping the last character of the first string changes the distance by at most one. */
  lemma {:induction false} DropFirstBound(a: string, b: string)
    requires a != []
    ensures EditDistance(Init(a), b) <= EditDistance(a, b) + 1
    decreases |a| + |b|
  {
    if b != [] {
      DropFirstBound(a, Init(b));
    }
  }

  /** Dropping the last character of the second string changes the distance by at most one. */
  lemma {:induction false} DropSecondBound(a: string, b: string)
    requires b != []
    ensures EditDistance(a, Init(b)) <= EditDistance(a, b) + 1
    decreases |a| + |b|
  {
    if a != [] {
      DropSecondBound(Init(a), b);
    }
  }

  /**
   * When the last characters agree, the distance is that of the two strings
   * without them: the table may copy the diagonal cell.
   */
  lemma EqualLastCharacters(a: string, b: string)
    requires a != [] && b != [] && a[|a| - 1] == b[|b| - 1]
    ensures EditDistance(a, b) == EditDistance(Init(a), Init(b))
  {
    DropFirstBound(a, Init(b));
    DropSecondBound(Init(a), b);
  }

  /** The distance is symmetric, so the order of the arguments to the table does not matter. */
  lemma {:induction false} EditDistanceSymmetric(a: string, b: string)
    ensures EditDistance(a, b) == EditDistance(b, a)
    decreases |a| + |b|
  {
    if a != [] && b != [] {
      EditDistanceSymmetric(Init(a), Init(b));
      EditDistanceSymmetric(a, Init(b));
      EditDistanceSymmetric(Init(a), b);
    }
  }

  /** Distance zero exactly between equal strings. */
  lemma {:induction false} EditDistanceZeroIff(a: string, b: string)
    ensures EditDistance(a, b) == 0 <==> a == b
    decreases |a| + |b|
  {
    if a != [] && b != [] {
      EditDistanceZeroIff(Init(a), Init(b));
      if a == b {
        assert Init(a) == Init(b);
      }
      if EditDistance(a, b) == 0 {
        assert a == Init(a) + [a[|a| - 1]] && b == Init(b) + [b[|b| - 1]];
      }
    }
  }

  /**
   * A string is at distance 0 from itself, and at its own length from the
   * empty string in either order: the table's first row and column.
   */
  lemma DistanceToSelfAndEmpty(s: string)
    ensures EditDistance(s, s) == 0
    ensures EditDistance(s, "") == |s| && EditDistance("", s) == |s|
  {
    EditDistanceZeroIff(s, s);
  }

  /**
   * `levenshteinDistance(str1, str2)`: a table of `|str2| + 1` rows and
   * `|str1| + 1` columns whose cell `(i, j)` ends up holding the distance
   * between the first `i` characters of `str2` and the first `j` of `str1`.
   */
  method LevenshteinDistance(str1: string, str2: string) returns (d: nat)
    ensures d == EditDistance(str2, str1)
  {
    var matrix := new nat[|str2| + 1, |str1| + 1];
    for i := 0 to |str2| + 1
      invariant forall i' :: 0 <= i' < i ==> matrix[i', 0] == i'
    {
      matrix[i, 0] := i;
    }
    for j := 0 to |str1| + 1
      invariant forall i' :: 0 <= i' <= |str2| ==> matrix[i', 0] == i'
      invariant forall j' :: 0 <= j' < j ==> matrix[0, j'] == j'
    {
      matrix[0, j] := j;
    }
    for i := 1 to |str2| + 1
      invariant forall i', j' :: 0 <= i' < i && 0 <= j' <= |str1| ==>
        matrix[i', j'] == Cell(str2, str1, i', j')
      invariant forall i' :: i <= i' <= |str2| ==> matrix[i', 0] == i'
    {
      for j := 1 to |str1| + 1
        invariant forall i', j' :: 0 <= i' < i && 0 <= j' <= |str1| ==>
          matrix[i', j'] == Cell(str2, str1, i', j')
        invariant forall j' :: 0 <= j' < j ==> matrix[i, j'] == Cell(str2, str1, i, j')
        invariant forall i' :: i < i' <= |str2| ==> matrix[i', 0] == i'
      {
        TableStep(str2, str1, i, j);
        if str2[i - 1] == str1[j - 1] {
          matrix[i, j] := matrix[i - 1, j - 1];
        } else {
          matrix[i, j] := Min3(matrix[i - 1, j - 1] + 1, matrix[i, j - 1] + 1, matrix[i - 1, j] + 1);
        }
      }
    }
    d := matrix[|str2|, |str1|];
    assert str2[..|str2|] == str2 && str1[..|str1|] == str1;
    assert d == Cell(str2, str1, |str2|, |str1|);
  }

  /** The table's value for the first `i` characters of `a` against the first `j` of `b`. */
  ghost function Cell(a: string, b: string, i: nat, j: nat): nat
    requires i <= |a| && j <= |b|
  {
    EditDistance(a[..i], b[..j])
  }

  /**
   * The distance from its three neighbours, as `levenshteinDistance`
   * computes a cell: the diagonal one, the one to the left (one character
   * less of `b`) and the one above (one character less of `a`).
   */
  lemma TableRecurrence(a: string, b: string, diagonal: nat, left: nat, up: nat)
    requires a != [] && b != []
    requires diagonal == EditDistance(Init(a), Init(b))
    requires left == EditDistance(a, Init(b)) && up == EditDistance(Init(a), b)
    ensures EditDistance(a, b) ==
      if a[|a| - 1] == b[|b| - 1] then diagonal else Min3(diagonal + 1, left + 1, up + 1)
  {
    if a[|a| - 1] == b[|b| - 1] {
      EqualLastCharacters(a, b);
    }
  }

  /** One cell of the table from its three neighbours. */
  lemma TableStep(a: string, b: string, i: nat, j: nat)
    requires 1 <= i <= |a| && 1 <= j <= |b|
    ensures a[i - 1] == b[j - 1] ==> Cell(a, b, i, j) == Cell(a, b, i - 1, j - 1)
    ensures a[i - 1] != b[j - 1] ==>
      Cell(a, b, i, j) == Min3(Cell(a, b, i - 1, j - 1) + 1, Cell(a, b, i, j - 1) + 1, Cell(a, b, i - 1, j) + 1)
  {
    var x, y := a[..i], b[..j];
    assert Init(x) == a[..i - 1] && Init(y) == b[..j - 1];
    assert x[|x| - 1] == a[i - 1] && y[|y| - 1] == b[j - 1];
    TableRecurrence(x, y, Cell(a, b, i - 1, j - 1), Cell(a, b, i, j - 1), Cell(a, b, i - 1, j));
  }

  // ------------------------------------------------------------ closest match

  /**
   * The distance `findClosestMatch` compares: the table for the lower-cased
   * word (as `str1`) against the lower-cased entry (as `str2`).
   */
  function WordDistance(word: string, entry: string): nat {
    EditDistance(ToLower(entry), ToLower(word))
  }

  predicate NoneWithinTwo(word: string, dictionary: seq<string>) {
    forall k :: 0 <= k < |dictionary| ==> WordDistance(word, dictionary[k]) > 2
  }

  /**
   * Entry `i` is the one picked: it is within distance 2, no entry is closer,
   * and every earlier entry is farther (the comparison is strict, so the
   * first of several equally close entries wins).
   */
  predicate IsClosest(word: string, dictionary: seq<string>, i: int) {
    && 0 <= i < |dictionary|
    && WordDistance(word, dictionary[i]) <= 2
    && (forall k :: 0 <= k < |dictionary| ==> WordDistance(word, dictionary[i]) <= WordDistance(word, dictionary[k]))
    && (forall k :: 0 <= k < i ==> WordDistance(word, dictionary[i]) < WordDistance(word, dictionary[k]))
  }

  /** The word's distance to each entry, in dictionary order. */
  function Distances(word: string, dictionary: seq<string>): (r: seq<nat>)
    ensures |r| == |dictionary|
    ensures forall k :: 0 <= k < |r| ==> r[k] == WordDistance(word, dictionary[k])
  {
    seq(|dictionary|, k requires 0 <= k < |dictionary| => WordDistance(word, dictionary[k]))
  }

  /** Position `i` holds the first minimum of `ds`, and that minimum is at most 2. */
  predicate IsFirstClosest(ds: seq<nat>, i: int) {
    && 0 <= i < |ds|
    && ds[i] <= 2
    && (forall k :: 0 <= k < |ds| ==> ds[i] <= ds[k])
    && (forall k :: 0 <= k < i ==> ds[i] < ds[k])
  }

  /**
   * The position `findClosestMatch` settles on, given the distances in
   * dictionary order: scanning from the left, a distance replaces the best
   * so far when it is at most 2 and strictly smaller.
   */
  function FirstClosest(ds: seq<nat>): (r: Option<nat>)
    ensures r.None? <==> forall k :: 0 <= k < |ds| ==> ds[k] > 2
    ensures r.Some? ==> IsFirstClosest(ds, r.value)
    decreases |ds|
  {
    if ds == [] then None
    else
      var n := |ds| - 1;
      var previous := FirstClosest(ds[..n]);
      if ds[n] <= 2 && (previous.None? || ds[n] < ds[previous.value]) then Some(n)
      else previous
  }

  /** The entry `findClosestMatch` returns, or `None` for its `null`. */
  function ClosestMatch(word: string, dictionary: seq<string>): (r: Option<string>)
    ensures r.None? <==> NoneWithinTwo(word, dictionary)
    ensures r.Some? ==> exists i :: IsClosest(word, dictionary, i) && r.value == dictionary[i]
  {
    var ds := Distances(word, dictionary);
    match FirstClosest(ds)
    case None => None
    case Some(i) =>
      assert IsFirstClosest(ds, i);
      assert IsClosest(word, dictionary, i);
      Some(dictionary[i])
  }

  /**
   * `findClosestMatch(word, dictionary)`. The running minimum starts at
   * `Infinity`, written `None` here.
   */
  method FindClosestMatch(word: string, dictionary: seq<string>) returns (r: Option<string>)
    ensures r == ClosestMatch(word, dictionary)
  {
    var lowerWord := ToLower(word);
    var closestMatch := "";
    var minDistance: Option<nat> := None;
    ghost var ds := Distances(word, dictionary);
    for k := 0 to |dictionary|
      invariant match FirstClosest(ds[..k])
        case None => minDistance.None?
        case Some(i) => minDistance == Some(ds[i]) && closestMatch == dictionary[i]
    {
      var distance := LevenshteinDistance(lowerWord, ToLower(dictionary[k]));
      assert distance == ds[k];
      assert ds[..k + 1][..k] == ds[..k];
      if (minDistance.None? || distance < minDistance.value) && distance <= 2 {
        minDistance := Some(distance);
        closestMatch := dictionary[k];
      }
    }
    assert ds[..|dictionary|] == ds;
    r := if minDistance.Some? && minDistance.value <= 2 then Some(closestMatch) else None;
  }

  // ------------------------------------------------------- per-word correction

  /** The dictionary of product names the corrector snaps words to, in the source's rows. */
  const CommonProducts: seq<string> :=
    SodaNames + DairyNames + StapleNames + CleaningNames + CareNames + SweetNames + DrinkNames + FrozenNames

  const SodaNames := ["Coca-Cola", "Pepsi", "Guaraná", "Fanta", "Sprite"]
  const DairyNames := ["Iogurte", "Leite", "Queijo", "Requeijão", "Manteiga"]
  const StapleNames := ["Arroz", "Feijão", "Macarrão", "Açúcar", "Farinha"]
  const CleaningNames := ["Detergente", "Sabão", "Amaciante", "Desinfetante"]
  const CareNames := ["Shampoo", "Condicionador", "Sabonete", "Desodorante"]
  const SweetNames := ["Biscoito", "Bolacha", "Chocolate", "Sorvete"]
  const DrinkNames := ["Cerveja", "Vinho", "Suco", "Água"]
  const FrozenNames := ["Pizza", "Lasanha", "Hambúrguer", "Nugget"]

  /** No entry holds a space, so none can split a word in two. */
  predicate SpaceFree(words: seq<string>) {
    forall k :: 0 <= k < |words| ==> ' ' !in words[k]
  }

  lemma SpaceFreeAppend(a: seq<string>, b: seq<string>)
    requires SpaceFree(a) && SpaceFree(b)
    ensures SpaceFree(a + b)
  {
    assert forall k :: 0 <= k < |a + b| ==> (a + b)[k] == if k < |a| then a[k] else b[k - |a|];
  }

  lemma FirstRowsSpaceFree()
    ensures SpaceFree(SodaNames) && SpaceFree(DairyNames)
  {
  }

  lemma MiddleRowsSpaceFree()
    ensures SpaceFree(StapleNames) && SpaceFree(CleaningNames) && SpaceFree(CareNames)
  {
  }

  lemma LastRowsSpaceFree()
    ensures SpaceFree(SweetNames) && SpaceFree(DrinkNames) && SpaceFree(FrozenNames)
  {
  }

  lemma CommonProductsSpaceFree()
    ensures SpaceFree(CommonProducts)
  {
    FirstRowsSpaceFree();
    MiddleRowsSpaceFree();
    LastRowsSpaceFree();
    SpaceFreeAppend(SodaNames, DairyNames);
    SpaceFreeAppend(SodaNames + DairyNames, StapleNames);
    SpaceFreeAppend(SodaNames + DairyNames + StapleNames, CleaningNames);
    SpaceFreeAppend(SodaNames + DairyNames + StapleNames + CleaningNames, CareNames);
    SpaceFreeAppend(SodaNames + DairyNames + StapleNames + CleaningNames + CareNames, SweetNames);
    SpaceFreeAppend(SodaNames + DairyNames + StapleNames + CleaningNames + CareNames + SweetNames, DrinkNames);
    SpaceFreeAppend(SodaNames + DairyNames + StapleNames + CleaningNames + CareNames + SweetNames + DrinkNames, FrozenNames);
  }


  /** Words of at most two characters, and words starting with a digit, are never corrected. */
  predicate KeptAsIs(word: string) {
    |word| <= 2 || IsDigit(word[0])
  }

  /** At most one entry is the closest: an earlier one would have to be both farther and no farther. */
  lemma ClosestUnique(word: string, dictionary: seq<string>, i: int, j: int)
    requires IsClosest(word, dictionary, i) && IsClosest(word, dictionary, j)
    ensures i == j
  {
  }

  /**
   * One word of the per-word step. A short or digit-led word is kept; any
   * other word is replaced by its closest dictionary entry when there is
   * one and it is not empty, and kept otherwise.
   */
  function CorrectWord(word: string, dictionary: seq<string>): (r: string)
    ensures KeptAsIs(word) ==> r == word
    ensures !KeptAsIs(word) && NoneWithinTwo(word, dictionary) ==> r == word
    ensures !KeptAsIs(word) ==> forall i :: IsClosest(word, dictionary, i) ==>
      r == if dictionary[i] != "" then dictionary[i] else word
    ensures r == word || exists i :: IsClosest(word, dictionary, i) && r == dictionary[i]
  {
    if KeptAsIs(word) then word
    else
      match ClosestMatch(word, dictionary)
      case Some(m) =>
        var i :| IsClosest(word, dictionary, i) && m == dictionary[i];
        assert forall j :: IsClosest(word, dictionary, j) ==> j == i by {
          forall j | IsClosest(word, dictionary, j) ensures j == i {
            ClosestUnique(word, dictionary, i, j);
          }
        }
        if m != "" then m else word
      case None => word
  }

  /** The per-word step of `correctSpelling`: split on spaces, correct each word, join with spaces. */
  function CorrectWords(text: string, dictionary: seq<string>): string {
    Join(Map(Split(text, ' '), (w: string) => CorrectWord(w, dictionary)), ' ')
  }

  /**
   * When no dictionary entry holds a space, the corrected text has as many
   * words as the original, each the correction of the word in its place, so
   * short and digit-led words come back unchanged.
   */
  lemma CorrectWordsPerWord(text: string, dictionary: seq<string>)
    requires forall k :: 0 <= k < |dictionary| ==> ' ' !in dictionary[k]
    ensures var before, after := Split(text, ' '), Split(CorrectWords(text, dictionary), ' ');
      && |after| == |before|
      && (forall k :: 0 <= k < |before| ==> after[k] == CorrectWord(before[k], dictionary))
      && (forall k :: 0 <= k < |before| && KeptAsIs(before[k]) ==> after[k] == before[k])
  {
    var before := Split(text, ' ');
    var words := Map(before, (w: string) => CorrectWord(w, dictionary));
    forall k | 0 <= k < |words|
      ensures ' ' !in words[k]
    {
      assert words[k] == CorrectWord(before[k], dictionary);
    }
    SplitJoin(words, ' ');
  }

  /**
   * The product dictionary holds no space, so the per-word step keeps the
   * word count of any text and corrects each word in its place.
   */
  lemma CommonProductsPerWord(text: string)
    ensures var before, after := Split(text, ' '), Split(CorrectWords(text, CommonProducts), ' ');
      && |after| == |before|
      && (forall k :: 0 <= k < |before| ==> after[k] == CorrectWord(before[k], CommonProducts))
  {
    CommonProductsSpaceFree();
    CorrectWordsPerWord(text, CommonProducts);
  }

  // --------------------------------------------------------- session suggestion

  /** One suggestion rule: a session and the keywords that point to it. */
  datatype Rule = Rule(category: string, keywords: seq<string>)

  /** The suggestion rules, in the order they are tried. */
  const SessionRules: seq<Rule> := [
    Rule("Farináceos & Leites", ["arroz", "feijão", "macarrão", "massa", "farinha", "trigo", "aveia", "cereal", "grão", "leite"]),
    Rule("Molho & Temperos", ["molho", "ketchup", "mostarda", "maionese", "tempero", "sal", "pimenta", "vinagre", "azeite", "óleo"]),
    Rule("Biscoito & Matinais", ["biscoito", "bolacha", "pão", "torrada", "cereal matinal", "granola", "barra de cereal"]),
    Rule("Laticínios & Danones", ["iogurte", "queijo", "requeijão", "manteiga", "margarina", "creme de leite", "nata", "danone"]),
    Rule("Ilha", ["chocolate", "bala", "chiclete", "doce", "bombom", "pirulito", "snack", "salgadinho"]),
    Rule("Congelados", ["congelado", "sorvete", "pizza", "lasanha", "nugget", "hambúrguer", "batata frita"]),
    Rule("Bebidas", ["refrigerante", "suco", "água", "cerveja", "vinho", "energético", "chá", "café", "coca", "pepsi", "guaraná", "fanta"]),
    Rule("Perfumaria", ["shampoo", "condicionador", "sabonete", "creme", "desodorante", "perfume", "pasta de dente", "escova"]),
    Rule("Limpeza", ["detergente", "sabão", "amaciante", "desinfetante", "água sanitária", "limpa", "esponja", "pano"])
  ]

  /** How many of the keywords occur in the (already lower-cased) name. */
  function KeywordMatches(name: string, keywords: seq<string>): (r: nat)
    ensures r == 0 <==> forall w :: w in keywords ==> !Contains(name, w)
  {
    var hits := Filter(keywords, (w: string) => Contains(name, w));
    assert forall w :: w in hits <==> w in keywords && Contains(name, w) by {
      forall w {
        FilterMembership(keywords, (w: string) => Contains(name, w), w);
      }
    }
    assert hits != [] ==> hits[0] in hits;
    |hits|
  }

  function RuleMatches(productName: string, rule: Rule): nat {
    KeywordMatches(ToLower(productName), rule.keywords)
  }

  /** Rule `i` is the one suggested: some keyword matches, no rule matches more, every earlier rule matches fewer. */
  predicate IsBestRule(productName: string, rules: seq<Rule>, i: int) {
    && 0 <= i < |rules|
    && RuleMatches(productName, rules[i]) > 0
    && (forall k :: 0 <= k < |rules| ==> RuleMatches(productName, rules[k]) <= RuleMatches(productName, rules[i]))
    && (forall k :: 0 <= k < i ==> RuleMatches(productName, rules[k]) < RuleMatches(productName, rules[i]))
  }

  /** Each rule's keyword count for the name, in rule order. */
  function MatchCounts(productName: string, rules: seq<Rule>): (r: seq<nat>)
    ensures |r| == |rules|
    ensures forall k :: 0 <= k < |r| ==> r[k] == RuleMatches(productName, rules[k])
  {
    seq(|rules|, k requires 0 <= k < |rules| => RuleMatches(productName, rules[k]))
  }

  /** Position `i` holds the first maximum of `counts`, and that maximum is positive. */
  predicate IsFirstMost(counts: seq<nat>, i: int) {
    && 0 <= i < |counts|
    && counts[i] > 0
    && (forall k :: 0 <= k < |counts| ==> counts[k] <= counts[i])
    && (forall k :: 0 <= k < i ==> counts[k] < counts[i])
  }

  /**
   * The position `suggestSessionLocal` settles on, given the counts in rule
   * order: scanning from the left, a count replaces the best so far (which
   * starts at 0) when it is strictly larger.
   */
  function FirstMost(counts: seq<nat>): (r: Option<nat>)
    ensures r.None? <==> forall k :: 0 <= k < |counts| ==> counts[k] == 0
    ensures r.Some? ==> IsFirstMost(counts, r.value)
    decreases |counts|
  {
    if counts == [] then None
    else
      var n := |counts| - 1;
      var previous := FirstMost(counts[..n]);
      if counts[n] > (if previous.None? then 0 else counts[previous.value]) then Some(n)
      else previous
  }

  /** The position of the rule suggested for a product name, if any. */
  function SuggestedRule(productName: string, rules: seq<Rule>): (r: Option<nat>)
    ensures r.None? <==> forall k :: 0 <= k < |rules| ==> RuleMatches(productName, rules[k]) == 0
    ensures r.Some? ==> IsBestRule(productName, rules, r.value)
  {
    var counts := MatchCounts(productName, rules);
    var r := FirstMost(counts);
    assert r.Some? ==> IsFirstMost(counts, r.value);
    r
  }

  /** The session suggested for a product name, `""` when no rule matches. */
  function SuggestedSession(productName: string, rules: seq<Rule>): string {
    match SuggestedRule(productName, rules)
    case None => ""
    case Some(i) => rules[i].category
  }

  /** The greatest count so far, 0 before any rule matches. */
  function BestCount(counts: seq<nat>): nat {
    match FirstMost(counts)
    case None => 0
    case Some(i) => counts[i]
  }

  /** One more rule: it takes over exactly when its count beats the best so far. */
  lemma FirstMostSnoc(counts: seq<nat>, k: nat)
    requires k < |counts|
    ensures FirstMost(counts[..k + 1]) == if counts[k] > BestCount(counts[..k]) then Some(k) else FirstMost(counts[..k])
  {
    assert counts[..k + 1][..k] == counts[..k];
  }

  /** `suggestSessionLocal(productName)` over the given rules. */
  method SuggestSessionLocal(productName: string, rules: seq<Rule>) returns (suggestion: string)
    ensures suggestion == SuggestedSession(productName, rules)
  {
    var name := ToLower(productName);
    suggestion := "";
    var maxMatches := 0;
    ghost var counts := MatchCounts(productName, rules);
    for k := 0 to |rules|
      invariant maxMatches == BestCount(counts[..k])
      invariant FirstMost(counts[..k]).None? ==> suggestion == ""
      invariant FirstMost(counts[..k]).Some? ==> suggestion == rules[FirstMost(counts[..k]).value].category
    {
      var matches := KeywordMatches(name, rules[k].keywords);
      assert matches == counts[k];
      FirstMostSnoc(counts, k);
      if matches > maxMatches {
        maxMatches := matches;
        suggestion := rules[k].category;
      }
    }
    assert counts[..|rules|] == counts;
  }

  /** A product name holds none of the rules' keywords. */
  predicate NoKeywordIn(name: string, rules: seq<Rule>) {
    forall k, w :: 0 <= k < |rules| && w in rules[k].keywords ==> !Contains(name, w)
  }

  /**
   * With non-empty session names, nothing is suggested exactly when no
   * keyword of any rule occurs in the lower-cased name.
   */
  lemma SuggestionEmptyIff(productName: string, rules: seq<Rule>)
    requires forall k :: 0 <= k < |rules| ==> rules[k].category != ""
    ensures SuggestedSession(productName, rules) == "" <==> NoKeywordIn(ToLower(productName), rules)
  {
    var name := ToLower(productName);
    if NoKeywordIn(name, rules) {
      forall k | 0 <= k < |rules|
        ensures RuleMatches(productName, rules[k]) == 0
      {
        assert forall w :: w in rules[k].keywords ==> !Contains(name, w);
      }
    } else {
      var k, w :| 0 <= k < |rules| && w in rules[k].keywords && Contains(name, w);
      assert RuleMatches(productName, rules[k]) > 0;
      var i := SuggestedRule(productName, rules).value;
      assert SuggestedSession(productName, rules) == rules[i].category;
      assert rules[i].category != "";
    }
  }

  /** With the app's rules, the suggestion is empty exactly when the name holds none of their keywords. */
  lemma SessionRulesSuggestionEmptyIff(productName: string)
    ensures SuggestedSession(productName, SessionRules) == "" <==> NoKeywordIn(ToLower(productName), SessionRules)
  {
    forall k | 0 <= k < |SessionRules| ensures SessionRules[k].category != "" {
    }
    SuggestionEmptyIff(productName, SessionRules);
  }

  // ----------------------------------------------------------------- the form

  /** The form's fields. */
  datatype ProductForm = ProductForm(
    productName: string,
    productBrand: string,
    barcode: string,
    expiryDate: string,
    quantity: int,
    status: string)

  /** The form as the page opens. */
  const InitialForm := ProductForm("", "", "", "", 1, "normal")

  /** The row inserted into the products table; an empty barcode is stored as null. */
  datatype NewRow = NewRow(
    userId: string,
    productName: string,
    productBrand: string,
    barcode: Option<string>,
    expiryDate: string,
    quantity: int,
    status: string)

  datatype SubmitOutcome =
    | NotAuthenticated
    | MissingFields
    | NonPositiveQuantity
    | Insert(row: NewRow)

  /** `handleSubmit`'s checks, in order, and the row it inserts when they pass. */
  function HandleSubmit(userId: Option<string>, form: ProductForm): (r: SubmitOutcome)
    ensures r.Insert? <==>
      && userId.Some? && userId.value != ""
      && form.productName != "" && form.expiryDate != "" && form.productBrand != ""
      && form.quantity > 0
    ensures r.Insert? ==>
      && r.row.userId == userId.value
      && r.row.productName == form.productName && r.row.productBrand == form.productBrand
      && (r.row.barcode.None? <==> form.barcode == "")
      && (r.row.barcode.Some? ==> r.row.barcode.value == form.barcode)
      && r.row.expiryDate == form.expiryDate && r.row.quantity == form.quantity && r.row.status == form.status
    ensures r == NotAuthenticated <==> userId.None? || userId.value == ""
  {
    if userId.None? || userId.value == "" then NotAuthenticated
    else if form.productName == "" || form.expiryDate == "" || form.productBrand == "" then MissingFields
    else if form.quantity <= 0 then NonPositiveQuantity
    else
      var barcode := if form.barcode == "" then None else Some(form.barcode);
      Insert(NewRow(userId.value, form.productName, form.productBrand, barcode,
                    form.expiryDate, form.quantity, form.status))
  }

  // ----------------------------------------------------------- quantity input

  /** The longest prefix of ASCII digits. */
  function DigitPrefix(s: string): (r: string)
    ensures |r| <= |s| && r == s[..|r|] && AllDigits(r)
    ensures |r| < |s| ==> !IsDigit(s[|r|])
  {
    if s != [] && IsDigit(s[0]) then [s[0]] + DigitPrefix(s[1..]) else ""
  }

  /**
   * `parseInt(s)` with no radix, for decimal text: leading white space, an
   * optional sign, then the longest run of digits; `None` is `NaN`.
   */
  function ParseInt(s: string): (r: Option<int>)
  {
    var t := TrimStart(s);
    var signed := t != [] && (t[0] == '-' || t[0] == '+');
    var digits := DigitPrefix(if signed then t[1..] else t);
    if digits == [] then None
    else
      var value: int := DigitsValue(digits);
      if signed && t[0] == '-' then Some(-value) else Some(value)
  }

  /** Parsing a printed natural number gives it back. */
  lemma ParseIntOfNatToString(n: nat)
    ensures ParseInt(NatToString(n)) == Some(n)
  {
    ParseIntOfDigits(NatToString(n));
    DigitsValueOfNatToString(n);
  }

  /** A non-empty run of digits parses to its value. */
  lemma ParseIntOfDigits(s: string)
    requires s != [] && AllDigits(s)
    ensures ParseInt(s) == Some(DigitsValue(s))
  {
    assert IsDigit(s[0]);
    assert !IsSpace(s[0]) && s[0] != '-' && s[0] != '+';
    assert TrimStart(s) == s;
    DigitPrefixOfDigits(s);
  }

  lemma {:induction false} DigitPrefixOfDigits(s: string)
    requires AllDigits(s)
    ensures DigitPrefix(s) == s
  {
    if s != [] {
      DigitPrefixOfDigits(s[1..]);
    }
  }

  /**
   * The quantity input's change handler: a positive parsed value is stored,
   * clearing the field stores 1 (`NaN || 1`), anything else is ignored.
   */
  function QuantityOnChange(quantity: int, value: string): (r: int)
    ensures value == "" ==> r == 1
    ensures value != "" && (ParseInt(value).None? || ParseInt(value).value <= 0) ==> r == quantity
    ensures ParseInt(value).Some? && ParseInt(value).value > 0 ==> r == ParseInt(value).value
  {
    var val := ParseInt(value);
    if (val.Some? && val.value > 0) || value == "" then
      if val.Some? && val.value != 0 then val.value else 1
    else quantity
  }

  /** Typing a positive number stores exactly that number. */
  lemma TypedQuantityStored(quantity: int, n: nat)
    requires n > 0
    ensures QuantityOnChange(quantity, NatToString(n)) == n
  {
    ParseIntOfNatToString(n);
  }

  /** The quantity after a series of edits of the field, starting from the form's initial 1. */
  function QuantityAfter(edits: seq<string>): int {
    if edits == [] then InitialForm.quantity
    else QuantityOnChange(QuantityAfter(edits[..|edits| - 1]), edits[|edits| - 1])
  }

  /** Whatever is typed, the stored quantity stays a positive integer. */
  lemma {:induction false} QuantityStaysPositive(edits: seq<string>)
    ensures QuantityAfter(edits) >= 1
  {
    if edits != [] {
      QuantityStaysPositive(edits[..|edits| - 1]);
    }
  }

  /** A form whose quantity was only ever edited through the input never fails the quantity check. */
  lemma SubmitNeverRejectsEditedQuantity(userId: Option<string>, form: ProductForm, edits: seq<string>)
    requires form.quantity == QuantityAfter(edits)
    ensures HandleSubmit(userId, form) != NonPositiveQuantity
  {
    QuantityStaysPositive(edits);
  }
}
