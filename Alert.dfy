/** The decision and message logic of main.py: whether the daily price change
    of the ticker triggers an alert, the subject line of the alert and the
    text handed to the mail relay. The price change itself is an input (the
    quote request and the float division are outside the model), and so is
    its percentage text (Python's `.0%` rendering of `abs(change)`). */
module Alert {
  import opened News

  const StockName: string := "TSLA"

  /** The alert fires when the signed relative change exceeds this fraction. */
  const AlertThreshold: real := 0.03

  datatype Option<T> = None | Some(value: T)

  /** The message of `send_email_with_top3_news_articles`. */
  datatype Email = Email(subject: string, body: string)

  /** The driver's test: the signed change, not its magnitude, must exceed the
      threshold, so only a rise whose size is above the threshold qualifies. */
  predicate ShouldAlert(change: real)
    ensures ShouldAlert(change) <==> change > 0.0 && Abs(change) > AlertThreshold
  {
    change > AlertThreshold
  }

  /** A subject of the "up" form: the ticker followed by ` is up: `. */
  predicate AnnouncesRise(subject: string) {
    StockName + " is up: " <= subject
  }

  function Abs(x: real): real {
    if x < 0.0 then -x else x
  }

  /** The subject line; `pct` is the already formatted percentage of `abs(change)`.
      A change of exactly zero counts as "down", and the "down" form keeps the
      program's trailing space. */
  function Subject(change: real, pct: string): (s: string)
    ensures AnnouncesRise(s) <==> change > 0.0
    ensures change > 0.0 ==> s == StockName + " is up: " + pct
    ensures change <= 0.0 ==> s == StockName + " is down: " + pct + " " && s[|s| - 1] == ' '
  {
    if change > 0.0 then
      StockName + " is up: " + pct
    else
      var s := StockName + " is down: " + pct + " ";
      assert s[8] == 'd';
      s
  }

  /** The message built for a change, a percentage text and the news articles. */
  function Notification(change: real, pct: string, articles: seq<Article>): (e: Email)
    ensures e.body == Digest(articles)
    ensures AnnouncesRise(e.subject) <==> change > 0.0
  {
    Email(Subject(change, pct), Digest(articles))
  }

  /** The text passed to the mail relay: a `subject:` header line, a blank
      line, then the body. */
  function MailText(e: Email): (m: string)
    ensures "subject: " + e.subject + "\n\n" <= m
    ensures m[|e.subject| + 11..] == e.body
  {
    "subject: " + e.subject + "\n\n" + e.body
  }

  /** The position of the first blank line (two newlines in a row) at or after
      `i`, or `|m|` when there is none. */
  function FirstBlank(m: string, i: nat): (k: nat)
    requires i <= |m|
    ensures i <= k <= |m|
    ensures k < |m| ==> k + 1 < |m| && m[k] == '\n' && m[k + 1] == '\n'
    ensures forall j :: i <= j < k && j + 1 < |m| ==> !(m[j] == '\n' && m[j + 1] == '\n')
    decreases |m| - i
  {
    if i + 1 >= |m| then |m|
    else if m[i] == '\n' && m[i + 1] == '\n' then i
    else FirstBlank(m, i + 1)
  }

  /** How the receiving side reads the mail text: a `subject:` header running up
      to the first blank line, and the body after that blank line. Whatever it
      reads back renders to the same text. */
  function ParseMail(m: string): (e: Option<Email>)
    ensures e.Some? ==> MailText(e.value) == m
    ensures e.Some? ==> forall j :: 0 <= j && j + 1 < |e.value.subject| ==> !(e.value.subject[j] == '\n' && e.value.subject[j + 1] == '\n')
  {
    if "subject: " <= m then
      var k := FirstBlank(m, 9);
      if k < |m| then
        var e := Email(m[9..k], m[k + 2..]);
        assert m[..9] == "subject: " && m[k..k + 2] == "\n\n";
        assert MailText(e) == m[..9] + m[9..k] + m[k..k + 2] + m[k + 2..];
        assert m[..9] + m[9..k] + m[k..k + 2] + m[k + 2..] == m;
        Some(e)
      else None
    else None
  }

  /** A message whose subject holds no newline is read back exactly from its
      mail text: the first blank line is the one after the header. */
  lemma {:induction false} MailTextRoundTrip(e: Email)
    requires forall j :: 0 <= j < |e.subject| ==> e.subject[j] != '\n'
    ensures ParseMail(MailText(e)) == Some(e)
  {
    var m := MailText(e);
    var n := 9 + |e.subject|;
    assert m[n] == '\n' && m[n + 1] == '\n';
    var k := FirstBlank(m, 9);
    assert k == n;
    assert m[9..k] == e.subject;
    assert m[k + 2..] == e.body;
  }

  /** The subject line never holds a newline when the percentage text does not. */
  lemma {:induction false} SubjectSingleLine(change: real, pct: string)
    requires forall j :: 0 <= j < |pct| ==> pct[j] != '\n'
    ensures var s := Subject(change, pct); forall j :: 0 <= j < |s| ==> s[j] != '\n'
  {
    var s := Subject(change, pct);
    var head := if change > 0.0 then StockName + " is up: " else StockName + " is down: ";
    forall j | 0 <= j < |s|
      ensures s[j] != '\n'
    {
      if j >= |head| && j - |head| < |pct| {
        assert s[j] == pct[j - |head|];
      }
    }
  }

  /** What the driver hands to the mail relay reads back as the same subject and
      the digest as body. */
  lemma {:induction false} HandedOverMailReadable(change: real, pct: string, articles: seq<Article>)
    requires forall j :: 0 <= j < |pct| ==> pct[j] != '\n'
    requires Driver(change, pct, articles).Some?
    ensures ParseMail(MailText(Driver(change, pct, articles).value)) == Driver(change, pct, articles)
  {
    SubjectSingleLine(change, pct);
    MailTextRoundTrip(Driver(change, pct, articles).value);
  }

  /** The driver: the message handed to the mail relay, if any. */
  function Driver(change: real, pct: string, articles: seq<Article>): (sent: Option<Email>)
    ensures sent.Some? <==> change > AlertThreshold
    ensures sent.Some? ==> sent.value.subject == StockName + " is up: " + pct
                           && sent.value.body == Digest(articles)
  {
    if ShouldAlert(change) then Some(Notification(change, pct, articles)) else None
  }

  /** Only rises alert: every message the driver hands over has the "up" subject,
      so the "down" form of the subject never goes out. */
  lemma SentSubjectsAnnounceRise(change: real, pct: string, articles: seq<Article>)
    requires Driver(change, pct, articles).Some?
    ensures AnnouncesRise(Driver(change, pct, articles).value.subject)
    ensures Driver(change, pct, articles).value.subject != Subject(-change, pct)
  {
    assert change > 0.0;
  }

  /** The threshold is strict: a change of exactly 3% hands nothing over, and so does
      a drop of any size. */
  lemma ThresholdIsStrict(pct: string, articles: seq<Article>, drop: real)
    requires drop < 0.0
    ensures Driver(0.03, pct, articles) == None
    ensures Driver(drop, pct, articles) == None
    ensures Driver(0.1, pct, articles).Some?
  {
  }

  /** With no articles the email still goes out, with an empty body. */
  lemma NoNewsStillSent(change: real, pct: string)
    requires change > AlertThreshold
    ensures Driver(change, pct, []) == Some(Email(StockName + " is up: " + pct, ""))
    ensures MailText(Driver(change, pct, []).value) == "subject: " + StockName + " is up: " + pct + "\n\n"
  {
    NoArticlesEmptyDigest();
  }

  /** As written, a drop whose magnitude exceeds the threshold is not reported:
      at -5% the driver hands nothing over. */
  lemma DropBeyondThresholdIgnored(pct: string, articles: seq<Article>)
    ensures Abs(-0.05) > AlertThreshold
    ensures Driver(-0.05, pct, articles) == None
  {
  }

  /** The driver as the threshold comment and the "down" subject suggest it was
      meant: alert when the change moves by more than the threshold either way. */
  function DriverByMagnitude(change: real, pct: string, articles: seq<Article>): (sent: Option<Email>)
    ensures sent.Some? <==> (change > AlertThreshold || change < -AlertThreshold)
    ensures sent.Some? ==> sent.value == Notification(change, pct, articles)
  {
    if Abs(change) > AlertThreshold then Some(Notification(change, pct, articles)) else None
  }

  /** The corrected driver agrees with the written one on rises, alerts on large
      drops with the "down" subject, and treats a move and its mirror alike. */
  lemma MagnitudeDriverProperties(change: real, pct: string, articles: seq<Article>)
    ensures change >= 0.0 ==> DriverByMagnitude(change, pct, articles) == Driver(change, pct, articles)
    ensures DriverByMagnitude(change, pct, articles).Some? == DriverByMagnitude(-change, pct, articles).Some?
    ensures DriverByMagnitude(-0.05, pct, articles)
         == Some(Email(StockName + " is down: " + pct + " ", Digest(articles)))
  {
  }
}
