/**
 * The `sendContactEmail` callable function (`functions/src/index.ts`): the required-field
 * check, then the mail configuration check, then the message built for the mail
 * transport, and the mapping of the send outcome to the caller's result.
 *
 * A field the caller left out, sent as null or as the empty text is falsy and is `None`
 * or `Some("")` here. The mail transport is not part of this model: whether it accepts
 * a message is the parameter `delivers`.
 */
module ContactFunction {
  import opened Types

  datatype ContactFormData = ContactFormData(
    name: Option<string>,
    email: Option<string>,
    phone: Option<string>,
    subject: Option<string>,
    message: Option<string>)

  /** `functions.config().email`, when the deployment sets it. */
  datatype EmailConfig = EmailConfig(user: Option<string>, pass: Option<string>, recipient: Option<string>)

  datatype ErrorCode = InvalidArgument | FailedPrecondition | Internal

  /** What the caller receives: the success object, or the error the function throws. */
  datatype CallResult = Success(message: string) | Failure(code: ErrorCode, reason: string)

  datatype MailOptions = MailOptions(from: string, to: string, replyTo: string, subject: string, html: string)

  /** A text value JavaScript treats as true: present and not empty. */
  predicate Truthy(v: Option<string>)
  {
    v.Some? && v.value != ""
  }

  /** `a || b` on optional texts. */
  function OrElse(v: Option<string>, fallback: string): (r: string)
    ensures Truthy(v) ==> r == v.value
    ensures !Truthy(v) ==> r == fallback
  {
    if Truthy(v) then v.value else fallback
  }

  /** Name, email, subject and message are required; the phone is not. */
  predicate HasRequiredFields(data: ContactFormData)
  {
    Truthy(data.name) && Truthy(data.email) && Truthy(data.subject) && Truthy(data.message)
  }

  /** The configuration exists and has both a user and a password. */
  predicate Configured(config: Option<EmailConfig>)
  {
    config.Some? && Truthy(config.value.user) && Truthy(config.value.pass)
  }

  // ---------------------------------------------------------------------------
  // The message body
  // ---------------------------------------------------------------------------

  function CountNewlines(s: string): nat
  {
    if s == [] then 0 else (if s[0] == '\n' then 1 else 0) + CountNewlines(s[1..])
  }

  /** `message.replace(/\n/g, "<br>")` */
  function ReplaceNewlines(s: string): (r: string)
    ensures '\n' !in r
    ensures |r| == |s| + 3 * CountNewlines(s)
  {
    if s == [] then []
    else (if s[0] == '\n' then "<br>" else [s[0]]) + ReplaceNewlines(s[1..])
  }

  /** Each line break becomes `<br>` in place: the text before the first break is kept,
      the break is replaced, and the rest is replaced in turn. */
  lemma ReplaceNewlinesAtBreak(a: string, b: string)
    requires '\n' !in a
    ensures ReplaceNewlines(a + "\n" + b) == a + "<br>" + ReplaceNewlines(b)
  {
    ReplaceNewlinesAppend(a + "\n", b);
    ReplaceNewlinesAppend(a, "\n");
    ReplaceNewlinesKeepsPlainText(a);
    assert ReplaceNewlines("\n") == "<br>" by {
      assert "\n"[1..] == [];
    }
  }

  /** A message without line breaks is sent as written. */
  lemma {:induction false} ReplaceNewlinesKeepsPlainText(s: string)
    requires '\n' !in s
    ensures ReplaceNewlines(s) == s
  {
    if s != [] {
      ReplaceNewlinesKeepsPlainText(s[1..]);
    }
  }

  /** Replacing distributes over the lines of a message. */
  lemma {:induction false} ReplaceNewlinesAppend(a: string, b: string)
    ensures ReplaceNewlines(a + b) == ReplaceNewlines(a) + ReplaceNewlines(b)
  {
    if a != [] {
      var first := if a[0] == '\n' then "<br>" else [a[0]];
      assert (a + b)[0] == a[0] && (a + b)[1..] == a[1..] + b;
      assert ReplaceNewlines(a + b) == first + ReplaceNewlines(a[1..] + b);
      ReplaceNewlinesAppend(a[1..], b);
      assert ReplaceNewlines(a) == first + ReplaceNewlines(a[1..]);
    } else {
      assert a + b == b;
    }
  }

  /** One labelled line of the body. */
  function Field(caption: string, value: string): string
  {
    "\n        <p><strong>" + caption + ":</strong> " + value + "</p>"
  }

  const Heading: string := "\n        <h2>New Contact Form Submission</h2>"
  const MessageHeading: string := "\n        <h3>Message:</h3>\n        "
  const Footer: string :=
    "\n        <hr>\n        <p><em>This message was sent from your website contact form.</em></p>\n      "

  /** The message paragraph. */
  function Paragraph(message: string): string
  {
    "<p>" + message + "</p>"
  }

  /** The template literal of `html`, filled in. */
  function Html(name: string, email: string, phone: string, subject: string, message: string): string
  {
    Heading + Field("Name", name) + Field("Email", email) + Field("Phone", phone)
    + Field("Subject", subject) + MessageHeading + Paragraph(message) + Footer
  }

  /** `part` appears in `s` starting at index `i`. */
  predicate OccursAt(s: string, part: string, i: int)
  {
    0 <= i && i + |part| <= |s| && s[i..i + |part|] == part
  }

  ghost predicate Contains(s: string, part: string)
  {
    exists i :: OccursAt(s, part, i)
  }

  lemma OccursAtEnd(a: string, b: string)
    ensures OccursAt(a + b, b, |a|)
  {
    assert (a + b)[|a|..|a| + |b|] == b;
  }

  lemma OccursExtend(s: string, part: string, i: int, d: string)
    requires OccursAt(s, part, i)
    ensures OccursAt(s + d, part, i)
  {
    assert (s + d)[i..i + |part|] == s[i..i + |part|];
  }

  /** The body shows the phone line with the phone if given, else with "Not provided",
      and the message with every line break turned into `<br>`. */
  lemma HtmlShowsPhoneAndMessage(data: ContactFormData)
    requires HasRequiredFields(data)
    ensures var h := Html(data.name.value, data.email.value, OrElse(data.phone, "Not provided"),
                          data.subject.value, ReplaceNewlines(data.message.value));
            Contains(h, Field("Phone", OrElse(data.phone, "Not provided")))
            && Contains(h, Paragraph(ReplaceNewlines(data.message.value)))
            && (!Truthy(data.phone) ==> Contains(h, Field("Phone", "Not provided")))
  {
    var phone := OrElse(data.phone, "Not provided");
    var body := ReplaceNewlines(data.message.value);
    var line, shown := Field("Phone", phone), Paragraph(body);
    var s0 := Heading + Field("Name", data.name.value) + Field("Email", data.email.value);
    var s1 := s0 + line;
    var s2 := s1 + Field("Subject", data.subject.value);
    var s3 := s2 + MessageHeading;
    var s4 := s3 + shown;
    OccursAtEnd(s0, line);
    OccursExtend(s1, line, |s0|, Field("Subject", data.subject.value));
    OccursExtend(s2, line, |s0|, MessageHeading);
    OccursExtend(s3, line, |s0|, shown);
    OccursExtend(s4, line, |s0|, Footer);
    OccursAtEnd(s3, shown);
    OccursExtend(s4, shown, |s3|, Footer);
  }

  /** `mailOptions`, for a configuration that passed the check. */
  function MailFor(data: ContactFormData, config: EmailConfig): (m: MailOptions)
    requires HasRequiredFields(data)
    requires Truthy(config.user)
    ensures m.from == config.user.value && m.replyTo == data.email.value
    ensures m.to == (if Truthy(config.recipient) then config.recipient.value else config.user.value)
    ensures m.subject == "Contact Form: " + data.subject.value
    ensures m.html == Html(data.name.value, data.email.value, OrElse(data.phone, "Not provided"),
                           data.subject.value, ReplaceNewlines(data.message.value))
  {
    MailOptions(
      config.user.value,
      OrElse(config.recipient, config.user.value),
      data.email.value,
      "Contact Form: " + data.subject.value,
      Html(data.name.value, data.email.value, OrElse(data.phone, "Not provided"),
           data.subject.value, ReplaceNewlines(data.message.value)))
  }

  /** What a call does: the mail handed to the transport, if any, and the result. */
  datatype Outcome = Outcome(attempted: Option<MailOptions>, result: CallResult)

  /** `sendContactEmail`: the field check comes first, then the configuration check;
      only then is a mail built and handed over, and its fate decides the result. */
  function SendContactEmail(data: ContactFormData, config: Option<EmailConfig>,
                            delivers: MailOptions -> bool): (out: Outcome)
    ensures out.result == Failure(InvalidArgument, "Missing required fields")
            <==> !HasRequiredFields(data)
    ensures out.result == Failure(FailedPrecondition, "Email service not configured")
            <==> HasRequiredFields(data) && !Configured(config)
    ensures out.attempted.Some? <==> HasRequiredFields(data) && Configured(config)
    ensures out.attempted.Some? ==> out.attempted.value == MailFor(data, config.value)
    ensures out.result.Success? <==> out.attempted.Some? && delivers(out.attempted.value)
    ensures out.result.Success? ==> out.result.message == "Email sent successfully"
    ensures out.result == Failure(Internal, "Failed to send email")
            <==> out.attempted.Some? && !delivers(out.attempted.value)
  {
    if !HasRequiredFields(data) then
      Outcome(None, Failure(InvalidArgument, "Missing required fields"))
    else if !Configured(config) then
      Outcome(None, Failure(FailedPrecondition, "Email service not configured"))
    else
      var mail := MailFor(data, config.value);
      if delivers(mail) then Outcome(Some(mail), Success("Email sent successfully"))
      else Outcome(Some(mail), Failure(Internal, "Failed to send email"))
  }

  /** Invalid input is reported as such whatever the deployment's configuration. */
  lemma FieldsCheckedBeforeConfig(data: ContactFormData, c1: Option<EmailConfig>, c2: Option<EmailConfig>,
                                  delivers: MailOptions -> bool)
    requires !HasRequiredFields(data)
    ensures SendContactEmail(data, c1, delivers) == SendContactEmail(data, c2, delivers)
    ensures SendContactEmail(data, None, delivers).result.code == InvalidArgument
  {
  }

  /** The phone never blocks a call: with the other fields valid and the service
      configured, a call without a phone still hands a mail over, and its body shows
      "Not provided" on the phone line. */
  lemma PhoneOptional(data: ContactFormData, config: Option<EmailConfig>, delivers: MailOptions -> bool)
    requires HasRequiredFields(data) && Configured(config)
    ensures SendContactEmail(data.(phone := None), config, delivers).attempted.Some?
    ensures SendContactEmail(data.(phone := None), config, delivers).attempted.value.html
            == Html(data.name.value, data.email.value, "Not provided", data.subject.value,
                    ReplaceNewlines(data.message.value))
  {
  }
}
