/** The contribution fetcher: it turns an optional year into the request
    window, sends one GraphQL request, and classifies the response in a fixed
    order (transport status, then reported GraphQL errors, then the data path).
    The network round trip itself is a parameter, `send`. */
module Contributions {
  import opened Wrappers

  /** One day cell of the provider's calendar. */
  datatype Day = Day(date: string, contributionCount: int, color: string, weekday: int)

  /** One column of the calendar, tagged with the date of its first day. */
  datatype Week = Week(firstDay: string, contributionDays: seq<Day>)

  /** A calendar exactly as the provider sends it; the total is the provider's. */
  datatype Calendar = Calendar(totalContributions: int, weeks: seq<Week>)

  // ---------------------------------------------------------------------------
  // Decimal text of an integer, as a template literal `${n}` writes it

  predicate IsDigit(c: char) { '0' <= c <= '9' }

  predicate AllDigits(s: string) { forall i :: 0 <= i < |s| ==> IsDigit(s[i]) }

  /** Decimal digits as `${n}` writes them: at least one, and no leading zero
      unless the number is zero itself. */
  predicate Canonical(s: string)
  {
    |s| > 0 && AllDigits(s) && (s[0] == '0' ==> |s| == 1)
  }

  function DigitChar(d: nat): (c: char)
    requires d < 10
    ensures IsDigit(c) && c as int - '0' as int == d
  {
    (d + '0' as int) as char
  }

  /** Decimal digits of `n`, most significant first, without leading zeros. */
  function NatToString(n: nat): (s: string)
    ensures Canonical(s)
    ensures s[0] == '0' <==> n == 0
    decreases n
  {
    if n < 10 then [DigitChar(n)] else NatToString(n / 10) + [DigitChar(n % 10)]
  }

  /** The text `${n}` gives for an integer below 10^21 in magnitude (larger
      numbers are written in exponent form and are not modelled): a minus
      sign exactly for a negative number, then the canonical digits of its
      magnitude. */
  function IntToString(n: int): (s: string)
    ensures |s| > 0 && (s[0] == '-' <==> n < 0)
    ensures n < 0 ==> Canonical(s[1..]) && s[1..] != "0"
    ensures n >= 0 ==> Canonical(s)
  {
    if n < 0 then "-" + NatToString(-n) else NatToString(n)
  }

  /** The value of a string of decimal digits. */
  function DigitsValue(s: string): nat
    requires AllDigits(s)
  {
    if s == [] then 0 else DigitsValue(s[..|s| - 1]) * 10 + (s[|s| - 1] as int - '0' as int)
  }

  /** Reads back canonical integer text only: an optional minus sign before
      canonical digits, and no `-0`. */
  function ParseInt(s: string): Option<int>
  {
    if |s| > 1 && s[0] == '-' && Canonical(s[1..]) && s[1..] != "0" then Some(-(DigitsValue(s[1..]) as int))
    else if Canonical(s) then Some(DigitsValue(s))
    else None
  }

  lemma {:induction false} DigitsRoundTrip(n: nat)
    ensures DigitsValue(NatToString(n)) == n
  {
    if n >= 10 {
      var s := NatToString(n);
      assert s[..|s| - 1] == NatToString(n / 10);
      DigitsRoundTrip(n / 10);
    }
  }

  /** `${n}` loses nothing: the text reads back as the same integer. */
  lemma IntToStringRoundTrip(n: int)
    ensures ParseInt(IntToString(n)) == Some(n)
  {
    if n < 0 {
      DigitsRoundTrip(-n);
      assert IntToString(n)[1..] == NatToString(-n);
    } else {
      DigitsRoundTrip(n);
    }
  }

  /** Digits that do not start with `0` have a positive value. */
  lemma {:induction false} LeadingDigitPositive(s: string)
    requires Canonical(s) && s[0] != '0'
    ensures DigitsValue(s) >= 1
  {
    if |s| > 1 {
      assert s[..|s| - 1][0] == s[0];
      LeadingDigitPositive(s[..|s| - 1]);
    }
  }

  /** Canonical digits are the only text of their value. */
  lemma {:induction false} CanonicalDigitsUnique(s: string)
    requires Canonical(s)
    ensures s == NatToString(DigitsValue(s))
  {
    if |s| > 1 {
      var prefix := s[..|s| - 1];
      assert prefix[0] == s[0];
      LeadingDigitPositive(prefix);
      CanonicalDigitsUnique(prefix);
      var m := DigitsValue(s);
      assert m / 10 == DigitsValue(prefix) && m % 10 == s[|s| - 1] as int - '0' as int;
      assert s == prefix + [s[|s| - 1]];
    }
  }

  /** Parsing fixes the text: the only string that reads back as `n` is the
      one `${n}` writes. */
  lemma ParseIntOnlyCanonical(s: string, n: int)
    requires ParseInt(s) == Some(n)
    ensures s == IntToString(n)
  {
    if |s| > 1 && s[0] == '-' && Canonical(s[1..]) && s[1..] != "0" {
      CanonicalDigitsUnique(s[1..]);
      assert s[1..][0] != '0';
      LeadingDigitPositive(s[1..]);
      assert s == "-" + s[1..];
    } else {
      CanonicalDigitsUnique(s);
    }
  }

  // ---------------------------------------------------------------------------
  // The request window and the request variables

  const FromSuffix := "-01-01T00:00:00Z"
  const ToSuffix := "-12-31T23:59:59Z"

  datatype Window = Window(from: Option<string>, to: Option<string>)

  /** `year ? ... : undefined`: an absent year and the falsy year 0 give no window. */
  predicate IsTruthy(year: Option<int>) { year.Some? && year.value != 0 }

  /** The `from`/`to` pair sent with the request: the whole calendar year in UTC,
      or neither bound, leaving the provider's default trailing window. */
  function RequestWindow(year: Option<int>): (w: Window)
    ensures w.from.Some? <==> IsTruthy(year)
    ensures w.to.Some? <==> IsTruthy(year)
    ensures IsTruthy(year) ==> BoundYear(w.from.value, FromSuffix) == year
    ensures IsTruthy(year) ==> BoundYear(w.to.value, ToSuffix) == year
  {
    if IsTruthy(year) then
      var text := IntToString(year.value);
      assert (text + FromSuffix)[..|text|] == text;
      assert (text + ToSuffix)[..|text|] == text;
      IntToStringRoundTrip(year.value);
      Window(Some(text + FromSuffix), Some(text + ToSuffix))
    else
      Window(None, None)
  }

  /** The year a window bound names: the integer before the fixed date-time suffix. */
  function BoundYear(bound: string, suffix: string): Option<int>
  {
    if |suffix| <= |bound| && bound[|bound| - |suffix|..] == suffix
    then ParseInt(bound[..|bound| - |suffix|])
    else None
  }

  /** A bound that names year `y` is exactly the text `${y}` followed by the
      suffix, so the window of `RequestWindow` is the one line 23 writes. */
  lemma BoundYearFixesText(bound: string, suffix: string, y: int)
    requires BoundYear(bound, suffix) == Some(y)
    ensures bound == IntToString(y) + suffix
  {
    ParseIntOnlyCanonical(bound[..|bound| - |suffix|], y);
    assert bound == bound[..|bound| - |suffix|] + bound[|bound| - |suffix|..];
  }

  /** Distinct years ask for distinct windows, and the bounds of one window
      never coincide. */
  lemma WindowsDistinguishYears(y1: int, y2: int)
    requires y1 != 0 && y2 != 0
    ensures RequestWindow(Some(y1)) == RequestWindow(Some(y2)) <==> y1 == y2
    ensures RequestWindow(Some(y1)).from != RequestWindow(Some(y1)).to
  {
    var w := RequestWindow(Some(y1));
    var t := IntToString(y1);
    assert w.from.value[|t| + 1] == '0' && w.to.value[|t| + 1] == '1';
  }

  /** The GraphQL variables object: exactly the username and the two bounds. */
  datatype Variables = Variables(username: string, from: Option<string>, to: Option<string>)

  function RequestVariables(username: string, year: Option<int>): (v: Variables)
    ensures v.username == username
    ensures Window(v.from, v.to) == RequestWindow(year)
  {
    var w := RequestWindow(year);
    Variables(username, w.from, w.to)
  }

  // ---------------------------------------------------------------------------
  // The response and its classification

  /** How far the path `data.user.contributionsCollection.contributionCalendar`
      exists in the decoded body. Reading a property of a missing object throws;
      reading the last, missing, property yields `undefined` without throwing. */
  datatype DataPath =
    | NoData
    | NoUser
    | NoCollection
    | CalendarField(calendar: Option<Calendar>)

  /** The decoded body: the `message` field of each entry of a top-level
      `errors` array, if the array is present, and the data path. */
  datatype Payload = Payload(errors: Option<seq<Option<string>>>, data: DataPath)

  datatype Response = Response(status: int, payload: Payload)

  /** `res.ok`: a status in the range 200 to 299. */
  predicate StatusOk(status: int): (ok: bool)
    ensures ok <==> status / 100 == 2
  {
    200 <= status <= 299
  }

  datatype FetchError =
    | ApiError(status: int)        // non-ok transport status
    | GraphQLError(message: string) // the provider reported errors
    | TypeError                     // reading a property of `undefined`

  /** `${json.errors[0].message}`: an entry without a message is written as `undefined`. */
  function FirstErrorMessage(errors: seq<Option<string>>): (message: string)
    requires |errors| > 0
    ensures errors[0].Some? ==> message == errors[0].value
    ensures errors[0].None? ==> message == "undefined"
  {
    match errors[0]
    case Some(message) => message
    case None => "undefined"
  }

  /** The message of the errors the fetcher throws itself. */
  function ErrorMessage(e: FetchError): (m: string)
    requires !e.TypeError?
    ensures e.ApiError? ==> |ApiErrorPrefix| <= |m| && m[..|ApiErrorPrefix|] == ApiErrorPrefix
                            && ParseInt(m[|ApiErrorPrefix|..]) == Some(e.status)
    ensures e.GraphQLError? ==> m == GraphQLErrorPrefix + e.message
  {
    match e
    case ApiError(status) =>
      IntToStringRoundTrip(status);
      var m := ApiErrorPrefix + IntToString(status);
      assert m[|ApiErrorPrefix|..] == IntToString(status);
      m
    case GraphQLError(message) => GraphQLErrorPrefix + message
  }

  const ApiErrorPrefix := "GitHub API error: "
  const GraphQLErrorPrefix := "GraphQL error: "

  /** The fetcher's decision on one response: a failing status wins before the
      body is read, reported errors win before the data path is read, and
      otherwise the calendar at the end of the path is returned as it is. An
      empty `errors` array is truthy, and reading `message` from its missing
      first entry throws; so does reading past a missing step of the data
      path. */
  function Classify(resp: Response): (r: Result<Option<Calendar>, FetchError>)
    ensures !StatusOk(resp.status) ==> r == Err(ApiError(resp.status))
    ensures StatusOk(resp.status) && resp.payload.errors.Some? && |resp.payload.errors.value| > 0 ==>
              r == Err(GraphQLError(FirstErrorMessage(resp.payload.errors.value)))
    ensures StatusOk(resp.status) && resp.payload.errors == Some([]) ==> r == Err(TypeError)
    ensures StatusOk(resp.status) && resp.payload.errors.None? && !resp.payload.data.CalendarField? ==>
              r == Err(TypeError)
    ensures r.Ok? <==> StatusOk(resp.status) && resp.payload.errors.None? && resp.payload.data.CalendarField?
    ensures r.Ok? ==> r.value == resp.payload.data.calendar
  {
    if !StatusOk(resp.status) then Err(ApiError(resp.status))
    else if resp.payload.errors.Some? then
      (if |resp.payload.errors.value| > 0 then Err(GraphQLError(FirstErrorMessage(resp.payload.errors.value)))
       else Err(TypeError))
    else match resp.payload.data
      case CalendarField(calendar) => Ok(calendar)
      case _ => Err(TypeError)
  }

  /** A failing status decides the outcome whatever the body holds. */
  lemma StatusCheckedBeforeBody(status: int, p1: Payload, p2: Payload)
    requires !StatusOk(status)
    ensures Classify(Response(status, p1)) == Classify(Response(status, p2))
  {
  }

  /** Reported errors decide the outcome whatever the data path holds. */
  lemma ErrorsCheckedBeforeData(status: int, errors: seq<Option<string>>, d1: DataPath, d2: DataPath)
    ensures Classify(Response(status, Payload(Some(errors), d1))) == Classify(Response(status, Payload(Some(errors), d2)))
  {
  }

  /** One call: build the variables, send one request, classify the response. */
  function FetchContributions(username: string, year: Option<int>, send: Variables -> Response): (r: Result<Option<Calendar>, FetchError>)
    ensures var resp := send(RequestVariables(username, year));
            && (!StatusOk(resp.status) ==> r == Err(ApiError(resp.status)))
            && (StatusOk(resp.status) && resp.payload.errors.Some? && |resp.payload.errors.value| > 0 ==>
                  r == Err(GraphQLError(FirstErrorMessage(resp.payload.errors.value))))
            && (StatusOk(resp.status) && resp.payload.errors == Some([]) ==> r == Err(TypeError))
            && (StatusOk(resp.status) && resp.payload.errors.None? && !resp.payload.data.CalendarField? ==>
                  r == Err(TypeError))
            && (r.Ok? <==> StatusOk(resp.status) && resp.payload.errors.None? && resp.payload.data.CalendarField?)
            && (r.Ok? ==> resp.payload.data == CalendarField(r.value))
  {
    Classify(send(RequestVariables(username, year)))
  }
}
