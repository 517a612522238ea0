/**
 * The countdown page that every workstation's browser polls, and the choice
 * between that page and "404 Not Found" by request path.
 *
 * The page is a fixed HTML template with two numbers spliced in: the refresh
 * delay of its `<meta http-equiv="refresh">` tag, in seconds, and the value of
 * the script's `targetDate`, which is the given time as it is, or -1. The
 * given time is an integer in whatever unit the caller chose; the page's
 * script compares it with `Date().getTime()`, a count of milliseconds.
 */
module TimingWebserver {
  import opened Common

  // ---------------------------------------------------------------------
  // Decimal numbers, as Rust's `Display` writes them
  // ---------------------------------------------------------------------

  predicate IsDigit(c: char)
  {
    '0' <= c <= '9'
  }

  predicate AllDigits(s: string)
  {
    forall i :: 0 <= i < |s| ==> IsDigit(s[i])
  }

  function DigitChar(d: int): (c: char)
    requires 0 <= d < 10
    ensures IsDigit(c) && c as int - '0' as int == d
  {
    ('0' as int + d) as char
  }

  /** The decimal digits of `n`, without leading zeros. */
  function NatToString(n: nat): (s: string)
    ensures |s| >= 1 && AllDigits(s)
  {
    if n < 10 then [DigitChar(n)] else NatToString(n / 10) + [DigitChar(n % 10)]
  }

  /** `format!("{}", n)` for a signed integer. */
  function IntToString(n: int): (s: string)
    ensures |s| >= 1
    ensures n < 0 <==> s[0] == '-'
    ensures n < 0 ==> AllDigits(s[1..])
    ensures n >= 0 ==> AllDigits(s)
  {
    if n < 0 then "-" + NatToString(-n) else NatToString(n)
  }

  /** The number a string of decimal digits denotes. */
  function DigitsValue(s: string): nat
    requires AllDigits(s)
  {
    if s == [] then 0 else DigitsValue(s[..|s| - 1]) * 10 + (s[|s| - 1] as int - '0' as int)
  }

  lemma {:induction false} DigitsValueOfNatToString(n: nat)
    ensures DigitsValue(NatToString(n)) == n
  {
    if n >= 10 {
      DigitsValueOfNatToString(n / 10);
      var s := NatToString(n);
      assert s[..|s| - 1] == NatToString(n / 10);
    }
  }

  /** The number of decimal digits at the start of `s`. */
  function DigitSpan(s: string): (k: nat)
    ensures k <= |s| && AllDigits(s[..k])
    ensures k < |s| ==> !IsDigit(s[k])
  {
    if s == [] || !IsDigit(s[0]) then 0
    else
      var k := 1 + DigitSpan(s[1..]);
      assert s[..k] == [s[0]] + s[1..][..k - 1];
      k
  }

  lemma {:induction false} DigitSpanOfDigits(ds: string, rest: string)
    requires AllDigits(ds)
    requires rest == [] || !IsDigit(rest[0])
    ensures DigitSpan(ds + rest) == |ds|
  {
    if ds != [] {
      assert (ds + rest)[1..] == ds[1..] + rest;
      DigitSpanOfDigits(ds[1..], rest);
    }
  }

  /** Reads a decimal integer, with an optional minus sign, at the start of
      `s`: its value and how many characters it takes. */
  function ReadInt(s: string): (r: Option<(int, nat)>)
    ensures r.Some? ==> 0 < r.value.1 <= |s|
  {
    if |s| > 0 && s[0] == '-' then
      var k := DigitSpan(s[1..]);
      var magnitude: int := DigitsValue(s[1..][..k]);
      if k == 0 then None else Some((-magnitude, k + 1))
    else
      var k := DigitSpan(s);
      if k == 0 then None else Some((DigitsValue(s[..k]), k))
  }

  /** A formatted integer followed by anything but a digit reads back as
      itself. */
  lemma ReadIntOfFormatted(n: int, rest: string)
    requires rest == [] || !IsDigit(rest[0])
    ensures ReadInt(IntToString(n) + rest) == Some((n, |IntToString(n)|))
  {
    if n < 0 {
      ReadNegative(-n, rest);
    } else {
      ReadNonNegative(n, rest);
    }
  }

  lemma ReadNonNegative(n: nat, rest: string)
    requires rest == [] || !IsDigit(rest[0])
    ensures ReadInt(NatToString(n) + rest) == Some((n, |NatToString(n)|))
  {
    var ds := NatToString(n);
    var s := ds + rest;
    assert s[0] == ds[0] && IsDigit(s[0]);
    DigitSpanOfDigits(ds, rest);
    assert s[..|ds|] == ds;
    DigitsValueOfNatToString(n);
  }

  lemma ReadNegative(m: nat, rest: string)
    requires m > 0
    requires rest == [] || !IsDigit(rest[0])
    ensures ReadInt("-" + NatToString(m) + rest) == Some((-(m as int), 1 + |NatToString(m)|))
  {
    var ds := NatToString(m);
    var s := "-" + ds + rest;
    assert s[0] == '-';
    assert s[1..] == ds + rest;
    DigitSpanOfDigits(ds, rest);
    assert s[1..][..|ds|] == ds;
    DigitsValueOfNatToString(m);
  }

  // ---------------------------------------------------------------------
  // The page template
  // ---------------------------------------------------------------------

  /** The template text before the refresh delay. */
  const PageHead: string := @"
        <!DOCTYPE html>
        <html lang=""en"">
        <head>
            <meta charset=""UTF-8"">
            <meta name=""viewport"" content=""width=device-width, initial-scale=1.0"">
            <meta http-equiv=""refresh"" content="""

  /** The template text between the refresh delay and the target value. It
      opens with the quotation mark that closes the `content` attribute. */
  const PageMiddle: string := "\"" + @">
            <title>.</title>
            <style>
                body {
                    display: flex;
                    justify-content: center;
                    align-items: center;
                    height: 100vh;
                    font-family: Arial, sans-serif;
                    background-color: #f0f0f0;
                    margin: 0;
                }
                #countdown {
                    font-size: 48px;
                    color: #333;
                }
            </style>
        </head>
        <body>
            <div id=""countdown""></div>

            <script>
                const targetDate = "

  /** The template text after the target value. It opens with the semicolon
      that ends the `targetDate` declaration. */
  const PageTail: string := ";" + @"

                // Update the countdown every 1 second
                const countdown = setInterval(function() {
                    let text = """";

                    const now = new Date().getTime();
                    const distance = targetDate - now;

                    if (targetDate == -1) {
                        text = ""not started"";
                    } else if (distance < 0) {
                        text = ""time is up!"";
                    } else {
                        const minutes = Math.floor(distance / (1000 * 60));
                        const seconds = Math.floor((distance % (1000 * 60)) / 1000);
                        text = minutes + ""m "" + seconds + ""s"";
                    }


                    document.getElementById(""countdown"").innerHTML = text;
                    document.title = text;

                }, 1000);
            </script>
        </body>
        </html>
        "

  /** The template with a refresh delay and a target value filled in: the
      page is the template, and both numbers read back from it. */
  function Render(refreshDelay: int, targetTime: int): (html: string)
    ensures DecodePage(html) == Some((refreshDelay, targetTime))
  {
    assert PageMiddle[0] == '"' && PageTail[0] == ';';
    DecodeBetweenFormatted(PageHead, PageMiddle, PageTail, refreshDelay, targetTime);
    PageHead + IntToString(refreshDelay) + PageMiddle + IntToString(targetTime) + PageTail
  }

  /** Reads back the two integers from `html`, if it is `head`, an integer,
      `middle`, an integer and `tail`, in that order. */
  function DecodeBetween(head: string, middle: string, tail: string, html: string): Option<(int, int)>
  {
    if !(head <= html) then None else DecodeAfterHead(middle, tail, html[|head|..])
  }

  /** Reads back an integer, `middle`, an integer and `tail` from `s`. */
  function DecodeAfterHead(middle: string, tail: string, s: string): Option<(int, int)>
  {
    match ReadInt(s)
    case None => None
    case Some((first, k)) =>
      var rest := s[k..];
      if !(middle <= rest) then None
      else
        match ReadLast(tail, rest[|middle|..])
        case None => None
        case Some(second) => Some((first, second))
  }

  /** Reads back an integer followed by exactly `tail` from `s`. */
  function ReadLast(tail: string, s: string): Option<int>
  {
    match ReadInt(s)
    case None => None
    case Some((v, k)) => if s[k..] == tail then Some(v) else None
  }

  lemma ReadLastFormatted(tail: string, y: int)
    requires tail == [] || !IsDigit(tail[0])
    ensures ReadLast(tail, IntToString(y) + tail) == Some(y)
  {
    ReadIntOfFormatted(y, tail);
    assert (IntToString(y) + tail)[|IntToString(y)|..] == tail;
  }

  lemma DecodeAfterHeadFormatted(middle: string, tail: string, x: int, y: int)
    requires |middle| > 0 && !IsDigit(middle[0])
    requires tail == [] || !IsDigit(tail[0])
    ensures DecodeAfterHead(middle, tail, IntToString(x) + (middle + (IntToString(y) + tail))) == Some((x, y))
  {
    var a, b := IntToString(x), IntToString(y);
    var s := a + (middle + (b + tail));
    ReadIntOfFormatted(x, middle + (b + tail));
    assert s[|a|..] == middle + (b + tail);
    assert (middle + (b + tail))[|middle|..] == b + tail;
    ReadLastFormatted(tail, y);
  }

  /** Two formatted integers between fixed texts read back as themselves,
      when the texts after them do not start with a digit. */
  lemma DecodeBetweenFormatted(head: string, middle: string, tail: string, x: int, y: int)
    requires |middle| > 0 && !IsDigit(middle[0])
    requires tail == [] || !IsDigit(tail[0])
    ensures DecodeBetween(head, middle, tail, head + IntToString(x) + middle + IntToString(y) + tail) == Some((x, y))
  {
    var a, b := IntToString(x), IntToString(y);
    var html := head + a + middle + b + tail;
    assert html == head + (a + (middle + (b + tail)));
    assert html[|head|..] == a + (middle + (b + tail));
    DecodeAfterHeadFormatted(middle, tail, x, y);
  }

  /** Reads back the refresh delay and the target value from a page, if it is
      the template with two integers filled in. */
  function DecodePage(html: string): Option<(int, int)>
  {
    DecodeBetween(PageHead, PageMiddle, PageTail, html)
  }

  /** `generate_html`: the template with a refresh delay of 30 seconds and the
      given time when there is one, and with 3 seconds and -1 when there is
      none. */
  function GenerateHtml(time: Option<int>): (html: string)
    ensures time.Some? ==> DecodePage(html) == Some((30, time.value))
    ensures time.None? ==> DecodePage(html) == Some((3, -1))
  {
    var targetTime := match time case Some(t) => t case None => -1;
    var refreshDelay := match time case Some(_) => 30 case None => 3;
    Render(refreshDelay, targetTime)
  }

  /** Different times give different pages: the page shows which time it
      was generated for, and whether there was one. */
  lemma PageDeterminesTime(a: Option<int>, b: Option<int>)
    requires GenerateHtml(a) == GenerateHtml(b)
    ensures a == b
  {
  }

  // ---------------------------------------------------------------------
  // Routing
  // ---------------------------------------------------------------------

  /** An HTTP response: its status code, the headers the program adds, and
      its body. */
  datatype Response = Response(status: int, headers: seq<(string, string)>, body: string)

  /** The route match of `webserver`: "/" gets the countdown page as HTML,
      every other path a 404. */
  function Route(url: string, time: Option<int>): (r: Response)
    ensures url == "/" ==> r.status == 200 && r.headers == [("Content-Type", "text/html")] && r.body == GenerateHtml(time)
    ensures url != "/" ==> r.status == 404 && r.headers == [] && r.body == "404 Not Found"
  {
    if url == "/" then Response(200, [("Content-Type", "text/html")], GenerateHtml(time))
    else Response(404, [], "404 Not Found")
  }

  /** The time the page shows, shared with the control panel. */
  class TimeCell {
    var time: Option<int>

    constructor (time: Option<int>)
      ensures this.time == time
    {
      this.time := time;
    }
  }

  /** One pass of the request loop: the response to a request for `url`. It
      reads the shared time and may not write anything. */
  method HandleRequest(cell: TimeCell, url: string) returns (r: Response)
    ensures r == Route(url, cell.time)
    ensures url == "/" ==> DecodePage(r.body) == Some(if cell.time.Some? then (30, cell.time.value) else (3, -1))
  {
    var time := cell.time;
    r := Route(url, time);
  }
}
