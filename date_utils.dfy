/**
 * The expiry-day helpers of the date utilities, with the day count given
 * explicitly instead of read from the clock.
 */
module DateUtils {
  import opened Wrappers
  import opened Text

  const ExpiredPrefix := "Vencido há "
  const Today := "Vence hoje"
  const Tomorrow := "Vence amanhã"
  const Plural := " dias"
  const Singular := " dia"
  const RemainingSuffix := " dias restantes"

  /**
   * `getExpiryDescription` for a product `days` days away from expiry
   * (negative once expired).
   */
  function ExpiryDescription(days: int): string {
    if days < 0 then
      ExpiredPrefix + NatToString(-days) + (if -days != 1 then Plural else Singular)
    else if days == 0 then
      Today
    else if days == 1 then
      Tomorrow
    else
      NatToString(days) + RemainingSuffix
  }

  /**
   * Which of the four forms a description takes is decided by the day
   * count alone, and past counts are plural exactly when more than one
   * day has passed.
   */
  lemma DescriptionShape(days: int)
    ensures days < 0 <==> StartsWith(ExpiryDescription(days), ExpiredPrefix)
    ensures days == 0 <==> ExpiryDescription(days) == Today
    ensures days == 1 <==> ExpiryDescription(days) == Tomorrow
    ensures days >= 2 <==> EndsWith(ExpiryDescription(days), RemainingSuffix)
    ensures days < 0 ==> (EndsWith(ExpiryDescription(days), Plural) <==> days != -1)
  {
    DescriptionRoundTrip(days);
    var r := ExpiryDescription(days);
    if days < -1 {
      assert r == ExpiredPrefix + NatToString(-days) + Plural;
      assert r[..|ExpiredPrefix|] == ExpiredPrefix;
      assert r[|r| - 5..] == Plural;
      assert r[|r| - 2] != RemainingSuffix[|RemainingSuffix| - 2];
    } else if days == -1 {
      assert NatToString(1) == "1";
      assert r == "Vencido há 1 dia";
    } else if days == 1 {
      assert r[5] != ExpiredPrefix[5];
    } else if days >= 2 {
      var n := NatToString(days);
      assert r == n + RemainingSuffix;
      assert r[|r| - |RemainingSuffix|..] == RemainingSuffix;
      assert r[0] != ExpiredPrefix[0];
    }
  }

  /** The number written between `pre` and `post`, if `s` is exactly that. */
  function NumberBetween(s: string, pre: string, post: string): Option<nat> {
    if |s| > |pre| + |post| && s[..|pre|] == pre && s[|s| - |post|..] == post && AllDigits(s[|pre|..|s| - |post|]) then
      Some(DigitsValue(s[|pre|..|s| - |post|]))
    else
      None
  }

  lemma NumberBetweenOf(pre: string, n: nat, post: string)
    ensures NumberBetween(pre + NatToString(n) + post, pre, post) == Some(n)
  {
    var digits := NatToString(n);
    var s := pre + digits + post;
    assert s[..|pre|] == pre;
    assert s[|s| - |post|..] == post;
    assert s[|pre|..|s| - |post|] == digits;
    DigitsValueOfNatToString(n);
  }

  /** A text that does not start like `pre` holds no number after it. */
  lemma NotNumberBetween(s: string, pre: string, post: string)
    requires s != [] && pre != [] && s[0] != pre[0]
    ensures NumberBetween(s, pre, post) == None
  {
    if |s| > |pre| + |post| {
      assert s[..|pre|][0] == s[0];
    }
  }

  /**
   * Reads a description back into its day count; `None` for any text the
   * description never produces.
   */
  function ParseExpiryDescription(s: string): Option<int> {
    if s == Today then Some(0)
    else if s == Tomorrow then Some(1)
    else if NumberBetween(s, ExpiredPrefix, Plural).Some? then
      var n := NumberBetween(s, ExpiredPrefix, Plural).value;
      if n >= 2 then Some(-(n as int)) else None
    else if NumberBetween(s, ExpiredPrefix, Singular) == Some(1) then Some(-1)
    else if NumberBetween(s, "", RemainingSuffix).Some? then
      var n := NumberBetween(s, "", RemainingSuffix).value;
      if n >= 2 then Some(n as int) else None
    else None
  }

  /**
   * Every day count has its own description: reading it back gives the
   * count, so the branches are exhaustive and no two counts share a text.
   */
  lemma DescriptionRoundTrip(days: int)
    ensures ParseExpiryDescription(ExpiryDescription(days)) == Some(days)
  {
    if days < -1 {
      assert ExpiryDescription(days) == ExpiredPrefix + NatToString(-days) + Plural;
      RoundTripExpired(-days);
    } else if days == -1 {
      assert ExpiryDescription(days) == ExpiredPrefix + NatToString(1) + Singular;
      RoundTripExpiredOneDay();
    } else if days >= 2 {
      assert ExpiryDescription(days) == NatToString(days) + RemainingSuffix;
      RoundTripRemaining(days);
    }
  }

  lemma RoundTripExpired(n: nat)
    requires n >= 2
    ensures ParseExpiryDescription(ExpiredPrefix + NatToString(n) + Plural) == Some(-(n as int))
  {
    var s := ExpiredPrefix + NatToString(n) + Plural;
    assert |s| > |Today| && |s| > |Tomorrow|;
    NumberBetweenOf(ExpiredPrefix, n, Plural);
  }

  lemma RoundTripExpiredOneDay()
    ensures ParseExpiryDescription(ExpiredPrefix + NatToString(1) + Singular) == Some(-1)
  {
    var s := ExpiredPrefix + NatToString(1) + Singular;
    assert NatToString(1) == "1";
    assert s == "Vencido há 1 dia";
    assert s[|s| - 5] != Plural[0];
    NumberBetweenOf(ExpiredPrefix, 1, Singular);
  }

  lemma RoundTripRemaining(n: nat)
    requires n >= 2
    ensures ParseExpiryDescription(NatToString(n) + RemainingSuffix) == Some(n as int)
  {
    RemainingNotExpired(n);
    NumberBetweenOf("", n, RemainingSuffix);
    assert "" + NatToString(n) + RemainingSuffix == NatToString(n) + RemainingSuffix;
  }

  lemma RemainingNotExpired(n: nat)
    ensures var s := NatToString(n) + RemainingSuffix;
      && s != Today && s != Tomorrow
      && NumberBetween(s, ExpiredPrefix, Plural) == None
      && NumberBetween(s, ExpiredPrefix, Singular) == None
  {
    var s := NatToString(n) + RemainingSuffix;
    assert |s| > |Today| && |s| > |Tomorrow|;
    assert IsDigit(s[0]);
    NotNumberBetween(s, ExpiredPrefix, Plural);
    NotNumberBetween(s, ExpiredPrefix, Singular);
  }

  /** Two day counts share a description only when they are equal. */
  lemma DescriptionInjective(d1: int, d2: int)
    requires ExpiryDescription(d1) == ExpiryDescription(d2)
    ensures d1 == d2
  {
    DescriptionRoundTrip(d1);
    DescriptionRoundTrip(d2);
  }

  /** `isExpiringSoon` with the day count given and the window defaulting to 7 days. */
  predicate IsExpiringSoon(days: int, window: int := 7) {
    days >= 0 && days <= window
  }

  /**
   * Within the default window the description never says expired, and it
   * names today or tomorrow exactly for the first two days of the window.
   */
  lemma ExpiringSoonDescription(days: int)
    ensures IsExpiringSoon(days) ==> !StartsWith(ExpiryDescription(days), ExpiredPrefix)
    ensures IsExpiringSoon(days) && days >= 2 ==> EndsWith(ExpiryDescription(days), RemainingSuffix)
    ensures days < 2 && IsExpiringSoon(days) <==> ExpiryDescription(days) in {Today, Tomorrow}
  {
    DescriptionShape(days);
  }
}
