/**
  `ALXmail` of `alx/mail.py`: a mail message that is also an HTML builder.
  The builder part is a `HtmlBuilder` the mailer owns; the mailer adds the
  sender, the subject and the three recipient lists, the plain-text body
  rules, the de-duplication `send` applies and its bounded retry loop.
  SMTP and MIME are not modelled: what `send` hands to the transport is an
  `Outgoing` record, and whether each attempt succeeds is an input.
 */
module Mail {
  import opened Wrappers
  import opened Text
  import opened Html

  datatype MailKind = Plain | HtmlMail

  /** The mail types the constructor accepts; any other raises `TypeError`. */
  function MailKindOf(mailType: string): (k: Option<MailKind>)
    ensures k == Some(Plain) <==> mailType == "plain"
    ensures k == Some(HtmlMail) <==> mailType == "html"
    ensures k == None <==> mailType != "plain" && mailType != "html"
  {
    if mailType == "plain" then Some(Plain)
    else if mailType == "html" then Some(HtmlMail)
    else None
  }

  /** The MIME subtype of the body part. */
  function Subtype(k: MailKind): string {
    if k == Plain then "plain" else "html"
  }

  // ---------------------------------------------------------------------
  // Splitting a recipient string on runs of `,`, `;` and whitespace

  /** A character of the class `[,\s;]`. */
  predicate IsDelimiter(c: char) {
    c == ',' || c == ';' || IsSpace(c)
  }

  predicate NoDelimiter(s: string) {
    forall i :: 0 <= i < |s| ==> !IsDelimiter(s[i])
  }

  predicate AllDelimiters(s: string) {
    forall i :: 0 <= i < |s| ==> IsDelimiter(s[i])
  }

  /** Length of the leading run of non-delimiters. */
  function AddressLen(s: string): (n: nat)
    ensures n <= |s| && NoDelimiter(s[..n])
    ensures n == |s| || IsDelimiter(s[n])
  {
    if s == [] || IsDelimiter(s[0]) then 0 else 1 + AddressLen(s[1..])
  }

  /** Length of the leading run of delimiters. */
  function DelimiterLen(s: string): (n: nat)
    ensures n <= |s| && AllDelimiters(s[..n])
    ensures n == |s| || !IsDelimiter(s[n])
  {
    if s == [] || !IsDelimiter(s[0]) then 0 else 1 + DelimiterLen(s[1..])
  }

  /**
    `re.split(r"[,\s;]+", s)`: the text between maximal runs of delimiters.
    A leading or trailing run yields an empty first or last piece; only
    those two pieces can be empty.
   */
  function SplitAddresses(s: string): (pieces: seq<string>)
    ensures |pieces| >= 1
    ensures forall i :: 0 <= i < |pieces| ==> NoDelimiter(pieces[i])
    ensures forall i :: 0 < i < |pieces| - 1 ==> pieces[i] != []
    ensures s != [] && !IsDelimiter(s[0]) ==> pieces[0] != []
    decreases |s|
  {
    var n := AddressLen(s);
    if n == |s| then [s]
    else
      var m := n + DelimiterLen(s[n..]);
      [s[..n]] + SplitAddresses(s[m..])
  }

  lemma {:induction false} AddressLenOf(a: string, rest: string)
    requires NoDelimiter(a)
    requires rest == [] || IsDelimiter(rest[0])
    ensures AddressLen(a + rest) == |a|
    decreases |a|
  {
    if a != [] {
      assert (a + rest)[1..] == a[1..] + rest;
      AddressLenOf(a[1..], rest);
    }
  }

  lemma {:induction false} DelimiterLenOf(sep: string, rest: string)
    requires AllDelimiters(sep)
    requires rest == [] || !IsDelimiter(rest[0])
    ensures DelimiterLen(sep + rest) == |sep|
    decreases |sep|
  {
    if sep != [] {
      assert (sep + rest)[1..] == sep[1..] + rest;
      DelimiterLenOf(sep[1..], rest);
    }
  }

  lemma JoinFirstChar(sep: string, parts: seq<string>)
    requires parts != [] && parts[0] != []
    ensures Join(sep, parts) != [] && Join(sep, parts)[0] == parts[0][0]
  {
  }

  /** An address, a run of delimiters and the rest split into the address and the rest's pieces. */
  lemma SplitAfterFirst(a: string, sep: string, rest: string)
    requires a != [] && NoDelimiter(a)
    requires sep != [] && AllDelimiters(sep)
    requires rest == [] || !IsDelimiter(rest[0])
    ensures SplitAddresses(a + sep + rest) == [a] + SplitAddresses(rest)
  {
    var s := a + sep + rest;
    assert s == a + (sep + rest);
    AddressLenOf(a, sep + rest);
    assert s[..|a|] == a;
    assert s[|a|..] == sep + rest;
    DelimiterLenOf(sep, rest);
    assert s[|a| + |sep|..] == rest;
  }

  /**
    Addresses joined by any run of delimiters split back into the same
    addresses: `"a@x, b@y;c@z"` gives `a@x`, `b@y`, `c@z`.
   */
  lemma {:induction false} SplitJoinedAddresses(addrs: seq<string>, sep: string)
    requires addrs != []
    requires forall i :: 0 <= i < |addrs| ==> addrs[i] != [] && NoDelimiter(addrs[i])
    requires sep != [] && AllDelimiters(sep)
    ensures SplitAddresses(Join(sep, addrs)) == addrs
    decreases |addrs|
  {
    var a := addrs[0];
    if |addrs| == 1 {
      AddressLenOf(a, []);
      assert a + [] == a;
    } else {
      var rest := Join(sep, addrs[1..]);
      assert Join(sep, addrs) == a + sep + rest;
      JoinFirstChar(sep, addrs[1..]);
      SplitAfterFirst(a, sep, rest);
      SplitJoinedAddresses(addrs[1..], sep);
      assert [a] + addrs[1..] == addrs;
    }
  }

  /** A trailing separator adds an empty address after the last real one. */
  lemma TrailingSeparatorAddsEmptyAddress(a: string, sep: string)
    requires a != [] && NoDelimiter(a)
    requires sep != [] && AllDelimiters(sep)
    ensures SplitAddresses(a + sep) == [a, ""]
  {
    AddressLenOf(a, sep);
    assert (a + sep)[..|a|] == a;
    assert (a + sep)[|a|..] == sep;
    DelimiterLenOf(sep, []);
    assert sep + [] == sep;
    assert (a + sep)[|a| + |sep|..] == [];
  }

  // ---------------------------------------------------------------------
  // Recipients

  /** What `set_recipients` accepts: a list of addresses, or one string of them. */
  datatype Addresses = AddressList(items: seq<string>) | AddressText(text: string)

  /** The addresses `set_recipients` adds, in order. */
  function Pieces(to: Addresses): seq<string> {
    match to
    case AddressList(items) => items
    case AddressText(text) => SplitAddresses(text)
  }

  /** The addresses that reach the list named `list` when the recipient type is `kind`. */
  function Routed(kind: string, list: string, addrs: seq<string>): seq<string> {
    if kind == list then addrs else []
  }

  /** Routing one more address extends what reaches each list by that address's routing. */
  lemma RoutedSnoc(kind: string, list: string, addrs: seq<string>, x: string)
    ensures Routed(kind, list, addrs + [x]) == Routed(kind, list, addrs) + Routed(kind, list, [x])
  {
  }

  ghost predicate SameAddresses(a: seq<string>, b: seq<string>) {
    forall x :: x in a <==> x in b
  }

  /**
    `list(set(xs))`: the distinct addresses of `xs`. The order Python gives
    is unspecified, so only the set of addresses and their distinctness are
    promised.
   */
  method Dedup(xs: seq<string>) returns (ys: seq<string>)
    ensures NoDuplicates(ys)
    ensures SameAddresses(ys, xs)
    ensures |ys| <= |xs|
  {
    ys := [];
    var i := 0;
    while i < |xs|
      invariant 0 <= i <= |xs|
      invariant NoDuplicates(ys)
      invariant SameAddresses(ys, xs[..i])
      invariant |ys| <= i
    {
      assert xs[..i + 1] == xs[..i] + [xs[i]];
      if xs[i] !in ys {
        ys := ys + [xs[i]];
      }
      i := i + 1;
    }
    assert xs[..i] == xs;
  }

  // ---------------------------------------------------------------------
  // The retry loop of `send`

  const MaxAttempts := 20

  /** An exception: its class name and its message. */
  datatype Raised = Raised(name: string, message: string)

  /**
    The handler after the twentieth failure as written: `type(ex).__name__`
    is a string, so calling it raises a `TypeError` of its own and the
    delivery error is lost.
   */
  function ReraiseAsWritten(last: Raised): Raised {
    Raised("TypeError", "'str' object is not callable")
  }

  /** A lost connection surfaces as a `TypeError` under the handler as written. */
  lemma ReraiseAsWrittenLosesError()
    ensures var last := Raised("SMTPServerDisconnected", "Connection unexpectedly closed");
      ReraiseAsWritten(last).name != last.name && ReraiseAsWritten(last).message != last.message
  {
  }

  /**
    What the retry loop promises for attempt outcomes `outcome` (attempt
    `k`, counting from 0, succeeds when `outcome(k)`): it stops at the first
    success, and gives up after the twentieth failure.
   */
  predicate DeliveryOutcome(outcome: nat -> bool, attempts: nat, sent: bool) {
    && 1 <= attempts <= MaxAttempts
    && (forall k :: 0 <= k < attempts - 1 ==> !outcome(k))
    && (sent <==> outcome(attempts - 1))
    && (!sent ==> attempts == MaxAttempts)
  }

  /**
    The loop itself, with the exception of the last attempt re-raised as the
    handler evidently intends; `failure(k)` is the exception attempt `k`
    raises when it fails.
   */
  method Deliver(outcome: nat -> bool, failure: nat -> Raised)
    returns (attempts: nat, sent: bool, raised: Option<Raised>, sleeps: nat)
    ensures DeliveryOutcome(outcome, attempts, sent)
    ensures sent <==> exists k :: 0 <= k < MaxAttempts && outcome(k)
    ensures sent <==> raised.None?
    ensures !sent ==> raised == Some(failure(MaxAttempts - 1))
    ensures sleeps == attempts - 1
  {
    var count := 0;
    sent, raised, sleeps := false, None, 0;
    while count < MaxAttempts
      invariant 0 <= count <= MaxAttempts
      invariant forall k :: 0 <= k < count ==> !outcome(k)
      invariant sleeps == if count == MaxAttempts then count - 1 else count
      invariant raised == if count == MaxAttempts then Some(failure(MaxAttempts - 1)) else None
    {
      if outcome(count) {
        sent := true;
        break;
      }
      count := count + 1;
      if count == MaxAttempts {
        // after the last failure its exception is raised instead of sleeping
        raised := Some(failure(count - 1));
      } else {
        sleeps := sleeps + 1;
      }
    }
    attempts := if sent then count + 1 else count;
  }

  /** What `send` hands to the transport: the headers and the body part. */
  datatype Outgoing = Outgoing(
    sender: string, subject: string, to: string, cc: Option<string>, bcc: Option<string>,
    subtype: string, body: string)

  // ---------------------------------------------------------------------
  // The mailer

  class Mailer {
    const kind: MailKind
    /** The inherited `ALXhtml` state. */
    const doc: HtmlBuilder
    var sender: string
    var subject: string
    var mailhost: string
    var recipients: seq<string>
    var cc: seq<string>
    var bcc: seq<string>

    /**
      The constructor for an accepted mail type; the sender and the mail
      host come from the library configuration and are parameters here.
      A plain mail starts with an empty body.
     */
    constructor (kind: MailKind, libCss: string, sender: string, mailhost: string)
      ensures this.kind == kind && fresh(doc)
      ensures doc.html == StartHtml && doc.head == Head("") && doc.css == LibraryStyle(libCss)
      ensures doc.body == if kind == Plain then "" else StartBody
      ensures this.sender == sender && this.mailhost == mailhost && subject == "No subject"
      ensures recipients == [] && cc == [] && bcc == []
    {
      this.kind := kind;
      var d := new HtmlBuilder("", libCss);
      if kind == Plain {
        d.body := "";
      }
      doc := d;
      this.sender := sender;
      this.mailhost := mailhost;
      subject := "No subject";
      recipients, cc, bcc := [], [], [];
    }

    method SetFrom(sender: string)
      modifies this
      ensures this.sender == sender
      ensures subject == old(subject) && mailhost == old(mailhost)
      ensures recipients == old(recipients) && cc == old(cc) && bcc == old(bcc)
    {
      this.sender := sender;
    }

    method SetSubject(subject: string)
      modifies this
      ensures this.subject == subject
      ensures sender == old(sender) && mailhost == old(mailhost)
      ensures recipients == old(recipients) && cc == old(cc) && bcc == old(bcc)
    {
      this.subject := subject;
    }

    /** Appends `to` to the list `kind` names; an unknown kind changes nothing. */
    method AddRecipient(to: string, kind: string)
      modifies this
      ensures recipients == old(recipients) + Routed(kind, "to", [to])
      ensures cc == old(cc) + Routed(kind, "cc", [to])
      ensures bcc == old(bcc) + Routed(kind, "bcc", [to])
      ensures sender == old(sender) && subject == old(subject) && mailhost == old(mailhost)
    {
      if kind == "to" {
        recipients := recipients + [to];
      } else if kind == "cc" {
        cc := cc + [to];
      } else if kind == "bcc" {
        bcc := bcc + [to];
      }
    }

    /** Adds every address of a list, or of a delimited string, in order. */
    method SetRecipients(to: Addresses, kind: string)
      modifies this
      ensures recipients == old(recipients) + Routed(kind, "to", Pieces(to))
      ensures cc == old(cc) + Routed(kind, "cc", Pieces(to))
      ensures bcc == old(bcc) + Routed(kind, "bcc", Pieces(to))
      ensures sender == old(sender) && subject == old(subject) && mailhost == old(mailhost)
    {
      var addrs := Pieces(to);
      var i := 0;
      while i < |addrs|
        invariant 0 <= i <= |addrs|
        invariant recipients == old(recipients) + Routed(kind, "to", addrs[..i])
        invariant cc == old(cc) + Routed(kind, "cc", addrs[..i])
        invariant bcc == old(bcc) + Routed(kind, "bcc", addrs[..i])
        invariant sender == old(sender) && subject == old(subject) && mailhost == old(mailhost)
      {
        assert addrs[..i + 1] == addrs[..i] + [addrs[i]];
        RoutedSnoc(kind, "to", addrs[..i], addrs[i]);
        RoutedSnoc(kind, "cc", addrs[..i], addrs[i]);
        RoutedSnoc(kind, "bcc", addrs[..i], addrs[i]);
        AddRecipient(addrs[i], kind);
        i := i + 1;
      }
      assert addrs[..i] == addrs;
    }

    method AddCc(to: Addresses)
      modifies this
      ensures cc == old(cc) + Pieces(to)
      ensures recipients == old(recipients) && bcc == old(bcc)
      ensures sender == old(sender) && subject == old(subject) && mailhost == old(mailhost)
    {
      SetRecipients(to, "cc");
    }

    method AddBcc(to: Addresses)
      modifies this
      ensures bcc == old(bcc) + Pieces(to)
      ensures recipients == old(recipients) && cc == old(cc)
      ensures sender == old(sender) && subject == old(subject) && mailhost == old(mailhost)
    {
      SetRecipients(to, "bcc");
    }

    /** Replaces the body; in an html mail this is the html body the document wraps. */
    method SetBody(body: string)
      modifies doc
      ensures doc.body == body && doc.Frame() == old(doc.Frame())
    {
      doc.body := body;
    }

    /** A plain mail gets the paragraph on its own lines; an html mail gets an html paragraph. */
    method AddParagraph(p: string)
      modifies doc
      ensures doc.body == old(doc.body) + (if kind == HtmlMail then "<p>\n" + p else "\n" + p + "\n")
      ensures doc.Frame() == old(doc.Frame())
    {
      if kind == HtmlMail {
        doc.AddParagraph(p);
      } else {
        doc.body := doc.body + "\n" + p + "\n";
      }
    }

    /** A plain mail gets the text and a newline; an html mail gets an html paragraph. */
    method AddText(t: string)
      modifies doc
      ensures doc.body == old(doc.body) + (if kind == HtmlMail then "<p>\n" + t else t + "\n")
      ensures doc.Frame() == old(doc.Frame())
    {
      if kind == HtmlMail {
        doc.AddParagraph(t);
      } else {
        doc.body := doc.body + t + "\n";
      }
    }

    /** The body part `send` attaches. */
    function MessageBody(): string
      reads this, doc
    {
      if kind == HtmlMail then doc.GetHtml() else doc.body + "\n"
    }

    /**
      `send`: removes duplicate recipients (and cc and bcc when they are not
      empty), builds the headers and the body, and tries to deliver.
     */
    method Send(outcome: nat -> bool, failure: nat -> Raised)
      returns (msg: Outgoing, attempts: nat, sent: bool, raised: Option<Raised>)
      modifies this
      ensures NoDuplicates(recipients) && SameAddresses(recipients, old(recipients))
      ensures NoDuplicates(cc) && SameAddresses(cc, old(cc))
      ensures NoDuplicates(bcc) && SameAddresses(bcc, old(bcc))
      ensures msg.sender == sender == old(sender) && msg.subject == subject == old(subject)
      ensures mailhost == old(mailhost)
      ensures msg.to == Join(", ", recipients)
      ensures msg.cc == (if cc == [] then None else Some(Join(", ", cc)))
      ensures msg.bcc == (if bcc == [] then None else Some(Join(", ", bcc)))
      ensures msg.subtype == Subtype(kind) && msg.body == MessageBody()
      ensures DeliveryOutcome(outcome, attempts, sent)
      ensures sent <==> raised.None?
      ensures !sent ==> raised == Some(failure(MaxAttempts - 1))
    {
      recipients := Dedup(recipients);
      var ccHeader: Option<string> := None;
      if |cc| > 0 {
        var first := cc[0];
        cc := Dedup(cc);
        assert first in cc;
        ccHeader := Some(Join(", ", cc));
      }
      var bccHeader: Option<string> := None;
      if |bcc| > 0 {
        var first := bcc[0];
        bcc := Dedup(bcc);
        assert first in bcc;
        bccHeader := Some(Join(", ", bcc));
      }
      msg := Outgoing(sender, subject, Join(", ", recipients), ccHeader, bccHeader, Subtype(kind), MessageBody());
      var sleeps;
      attempts, sent, raised, sleeps := Deliver(outcome, failure);
    }
  }

  /** `ALXmail(mail_type)`: `None` stands for the `TypeError` raised for a type other than `plain` or `html`. */
  method NewMailer(mailType: string, libCss: string, sender: string, mailhost: string)
    returns (m: Option<Mailer>)
    ensures m.Some? <==> mailType == "plain" || mailType == "html"
    ensures m.Some? ==> fresh(m.value) && fresh(m.value.doc) && Some(m.value.kind) == MailKindOf(mailType)
    ensures m.Some? ==> m.value.doc.body == (if mailType == "plain" then "" else StartBody)
  {
    match MailKindOf(mailType)
    case None =>
      m := None;
    case Some(kind) =>
      var mailer := new Mailer(kind, libCss, sender, mailhost);
      m := Some(mailer);
  }
}
