/** The unread-count badge (src/components/NotificationBadge.tsx). */
module NotificationBadge {
  import opened Common

  /** The badge text for `count`; `None` when the badge renders nothing.
      Only zero hides the badge; counts above 99 are capped. */
  function BadgeText(count: int): (text: Option<string>)
    ensures text.None? <==> count == 0
  {
    if count == 0 then None
    else if count > 99 then Some("99+")
    else Some(IntToString(count))
  }

  /** Counts above 99 all show the same capped text. */
  lemma BadgeCapped(count: int)
    requires count > 99
    ensures BadgeText(count) == Some("99+")
  {
  }

  /** A count from 1 to 99 is shown unchanged: at most two digits that read back as the count. */
  lemma BadgeShowsSmallCount(count: int)
    requires 1 <= count <= 99
    ensures var t := BadgeText(count).value;
      1 <= |t| <= 2 && AllDigits(t) && DigitsValue(t) == count
  {
    NatToStringRoundTrip(count);
    var t := NatToString(count);
    if count >= 10 {
      assert |NatToString(count / 10)| == 1;
    }
  }

  /** A negative count is not suppressed: it is shown with its minus sign. */
  lemma BadgeShowsNegative(count: int)
    requires count < 0
    ensures var t := BadgeText(count).value;
      t[0] == '-' && AllDigits(t[1..]) && DigitsValue(t[1..]) == -count
  {
    var digits := NatToString(-count);
    NatToStringRoundTrip(-count);
    assert BadgeText(count).value == "-" + digits;
    assert ("-" + digits)[1..] == digits;
  }

  /** Two counts that show different texts differ; the cap is the only place
      where different counts share a text. */
  lemma BadgeTextsDistinct(a: int, b: int)
    requires a <= 99 && b <= 99
    requires BadgeText(a) == BadgeText(b)
    ensures a == b
  {
    if a != 0 && b != 0 {
      IntToStringInjective(a, b);
    }
  }
}
