/**
 * `extractDate` of the expiry scanner: finds a date in the text the OCR
 * engine read from the package and rewrites it as 'YYYY-MM-DD'. The two
 * patterns are unanchored regular expressions, so each finds its leftmost
 * match; the four-digit-year pattern is tried on the whole text first.
 */
module ExpiryScanner {
  import opened Wrappers
  import opened Text

  /** The separator class `[\/\-\.]`. */
  predicate IsSep(c: char) {
    c == '/' || c == '-' || c == '.'
  }

  /** `(\d{2})[\/\-\.](\d{2})[\/\-\.]` followed by `width` digits, starting at `i`. */
  predicate DateAt(text: string, i: nat, width: nat) {
    && i + 6 + width <= |text|
    && IsDigit(text[i]) && IsDigit(text[i + 1]) && IsSep(text[i + 2])
    && IsDigit(text[i + 3]) && IsDigit(text[i + 4]) && IsSep(text[i + 5])
    && forall k :: i + 6 <= k < i + 6 + width ==> IsDigit(text[k])
  }

  /** `text.match(pattern)` from position `from` on: the leftmost match, if any. */
  function FirstMatch(text: string, width: nat, from: nat): (r: Option<nat>)
    requires from <= |text|
    decreases |text| - from
    ensures r.Some? ==> from <= r.value && DateAt(text, r.value, width)
    ensures r.Some? ==> forall j :: from <= j < r.value ==> !DateAt(text, j, width)
    ensures r.None? ==> forall j :: from <= j ==> !DateAt(text, j, width)
  {
    if DateAt(text, from, width) then Some(from)
    else if from == |text| then None
    else FirstMatch(text, width, from + 1)
  }

  /** The date matched at `i` as 'YYYY-MM-DD', the day and month copied as they are. */
  function Rewrite(text: string, i: nat, width: nat): string
    requires DateAt(text, i, width)
  {
    var year := text[i + 6..i + 6 + width];
    (if width == 2 then "20" + year else year) + "-" + text[i + 3..i + 5] + "-" + text[i..i + 2]
  }

  /** `extractDate`: the first pattern that matches anywhere wins; `null` when neither does. */
  function ExtractDate(text: string): Option<string> {
    match FirstMatch(text, 4, 0)
    case Some(i) => Some(Rewrite(text, i, 4))
    case None =>
      match FirstMatch(text, 2, 0)
      case Some(i) => Some(Rewrite(text, i, 2))
      case None => None
  }

  /** Every four-digit-year date begins with a two-digit-year one. */
  lemma LongDateHasShortDate(text: string, i: nat)
    requires DateAt(text, i, 4)
    ensures DateAt(text, i, 2)
  {
  }

  /** No date is found exactly when the text holds no `DD?MM?YY` anywhere. */
  lemma ExtractDateNoneIff(text: string)
    ensures ExtractDate(text).None? <==> forall i :: !DateAt(text, i, 2)
  {
    if FirstMatch(text, 4, 0).Some? {
      LongDateHasShortDate(text, FirstMatch(text, 4, 0).value);
    }
  }

  /**
   * A found date has ten characters: four digits, '-', two digits, '-',
   * two digits, and the two-digit groups are the day and month read.
   */
  lemma ExtractDateShape(text: string)
    requires ExtractDate(text).Some?
    ensures var r := ExtractDate(text).value;
      && |r| == 10 && r[4] == '-' && r[7] == '-'
      && AllDigits(r[..4]) && AllDigits(r[5..7]) && AllDigits(r[8..])
  {
    match FirstMatch(text, 4, 0)
    case Some(i) => RewriteShape(text, i, 4);
    case None => RewriteShape(text, FirstMatch(text, 2, 0).value, 2);
  }

  lemma RewriteShape(text: string, i: nat, width: nat)
    requires width == 2 || width == 4
    requires DateAt(text, i, width)
    ensures var r := Rewrite(text, i, width);
      && |r| == 10 && r[4] == '-' && r[7] == '-'
      && AllDigits(r[..4]) && AllDigits(r[5..7]) && AllDigits(r[8..])
  {
    var digits := text[i + 6..i + 6 + width];
    assert AllDigits(digits);
    var year := if width == 2 then "20" + digits else digits;
    if width == 2 {
      DigitsJoin("20", digits);
    }
    var month, day := text[i + 3..i + 5], text[i..i + 2];
    assert AllDigits(month) && AllDigits(day);
    DigitFields(year, month, day);
    assert Rewrite(text, i, width) == year + "-" + month + "-" + day;
  }

  lemma DigitsJoin(a: string, b: string)
    requires AllDigits(a) && AllDigits(b)
    ensures AllDigits(a + b)
  {
    assert forall k :: 0 <= k < |a + b| ==> (a + b)[k] == if k < |a| then a[k] else b[k - |a|];
  }

  lemma DigitFields(year: string, month: string, day: string)
    requires |year| == 4 && |month| == 2 && |day| == 2
    requires AllDigits(year) && AllDigits(month) && AllDigits(day)
    ensures var r := year + "-" + month + "-" + day;
      && |r| == 10 && r[4] == '-' && r[7] == '-'
      && AllDigits(r[..4]) && AllDigits(r[5..7]) && AllDigits(r[8..])
  {
    var r := year + "-" + month + "-" + day;
    assert r[..4] == year && r[5..7] == month && r[8..] == day;
  }

  /**
   * A four-digit-year date anywhere wins over every two-digit-year date,
   * even an earlier one: the result is the leftmost four-digit-year date.
   */
  lemma FourDigitYearWins(text: string, i: nat)
    requires DateAt(text, i, 4)
    ensures exists j: nat ::
      && j <= i && DateAt(text, j, 4) && (forall k: nat :: k < j ==> !DateAt(text, k, 4))
      && ExtractDate(text) == Some(Rewrite(text, j, 4))
  {
    assert FirstMatch(text, 4, 0).Some?;
    var j := FirstMatch(text, 4, 0).value;
    assert j <= i;
  }

  /** Day and month are not range-checked: "99/99/2024" gives "2024-99-99". */
  lemma NoRangeCheck()
    ensures ExtractDate("99/99/2024") == Some("2024-99-99")
  {
    var text := "99/99/2024";
    assert DateAt(text, 0, 4);
    assert text[6..10] == "2024" && text[3..5] == "99" && text[0..2] == "99";
    assert FirstMatch(text, 4, 0) == Some(0);
    assert "2024" + "-" + "99" + "-" + "99" == "2024-99-99";
  }

  /** A two-digit year gets the prefix "20": "31.12.24" gives "2024-12-31". */
  lemma ShortYearPrefixed()
    ensures ExtractDate("31.12.24") == Some("2024-12-31")
  {
    var text := "31.12.24";
    assert DateAt(text, 0, 2);
    assert forall j: nat :: !DateAt(text, j, 4);
    assert FirstMatch(text, 4, 0) == None;
    assert text[6..8] == "24" && text[3..5] == "12" && text[0..2] == "31";
    assert FirstMatch(text, 2, 0) == Some(0);
    assert "20" + "24" + "-" + "12" + "-" + "31" == "2024-12-31";
  }
}
