/**
 * The helpers of the recent-messages card (`recent-messages.tsx`): its own
 * copy of the phone formatter and the badge colours for statuses and
 * channels.
 */
module RecentMessages {
  import opened Strings
  import TwilioService

  /**
   * The card's `formatPhoneNumber`: the digits, with a leading 1 dropped
   * when there are eleven; laid out as `(AAA) BBB-CCCC` when ten remain,
   * the input unchanged otherwise.
   */
  function FormatPhoneNumber(phone: string): (r: string)
    ensures r == phone || |r| == 14
  {
    var cleaned := Digits(phone);
    var national := if |cleaned| == 11 && cleaned[0] == '1' then cleaned[1..] else cleaned;
    if |national| == 10 then "(" + national[0..3] + ") " + national[3..6] + "-" + national[6..10]
    else phone
  }

  /** The card's copy agrees with the service's formatter on every input. */
  lemma FormatAgreesWithService(phone: string)
    ensures FormatPhoneNumber(phone) == TwilioService.FormatPhoneNumber(phone)
  {
    var cleaned := Digits(phone);
    var n := TwilioService.NanpDigits(cleaned);
    if n.Some? {
      assert n.value[0..3] == n.value[..3] && n.value[6..10] == n.value[6..];
    }
  }

  /** Ten digits, or eleven with a leading 1, always format to fourteen characters with the ten digits kept. */
  lemma NanpNumbersFormat(phone: string)
    requires var d := Digits(phone); |d| == 10 || (|d| == 11 && d[0] == '1')
    ensures |FormatPhoneNumber(phone)| == 14
    ensures Digits(FormatPhoneNumber(phone)) == Digits(phone)[|Digits(phone)| - 10..]
  {
    FormatAgreesWithService(phone);
  }

  const GreenBadge := "bg-green-100 text-green-800 dark:bg-green-900/20 dark:text-green-400"
  const BlueBadge := "bg-blue-100 text-blue-800 dark:bg-blue-900/20 dark:text-blue-400"
  const YellowBadge := "bg-yellow-100 text-yellow-800 dark:bg-yellow-900/20 dark:text-yellow-400"
  const RedBadge := "bg-red-100 text-red-800 dark:bg-red-900/20 dark:text-red-400"
  const GrayBadge := "bg-gray-100 text-gray-800 dark:bg-gray-900/20 dark:text-gray-400"
  const PurpleBadge := "bg-purple-100 text-purple-800 dark:bg-purple-900/20 dark:text-purple-400"

  /** The four statuses the card colours; anything else is gray. */
  predicate ColouredStatus(status: string) {
    status == "delivered" || status == "read" || status == "sent" || status == "failed"
  }

  /** `getStatusColor`: green, blue, yellow and red for the coloured statuses, gray for any other. */
  function GetStatusColor(status: string): (r: string)
    ensures r == GrayBadge <==> !ColouredStatus(status)
    ensures status == "delivered" ==> r == GreenBadge
    ensures status == "failed" ==> r == RedBadge
  {
    match status
    case "delivered" => GreenBadge
    case "read" => BlueBadge
    case "sent" => YellowBadge
    case "failed" => RedBadge
    case _ => GrayBadge
  }

  /** Different coloured statuses get different badges; `pending` is gray. */
  lemma StatusColorsDistinct(a: string, b: string)
    requires ColouredStatus(a) && ColouredStatus(b) && a != b
    ensures GetStatusColor(a) != GetStatusColor(b)
    ensures GetStatusColor("pending") == GrayBadge
  {
  }

  /** `getTypeColor`: purple exactly for `rcs`, blue for every other type. */
  function GetTypeColor(kind: string): (r: string)
    ensures r == PurpleBadge <==> kind == "rcs"
    ensures r == BlueBadge <==> kind != "rcs"
  {
    if kind == "rcs" then PurpleBadge else BlueBadge
  }
}
