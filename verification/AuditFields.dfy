/** What an audit finding's fields are read as. */
module AuditFields {
  import opened Wrappers
  import opened Text
  import opened AuditVerdict

  /** The text of a string field, without the blanks around it. */
  ghost predicate Says(fields: map<string, Json>, name: string, text: string) {
    name in fields && fields[name].Str? && text != [] && Trimmed(text)
    && exists before, after :: Blank(before) && Blank(after) && fields[name].s == Padded(before, text, after)
  }

  function Padded(before: string, text: string, after: string): string {
    before + text + after
  }

  /** No such field, or none with anything but blanks. */
  ghost predicate SaysNothing(fields: map<string, Json>, name: string) {
    name in fields && fields[name].Str? ==> Blank(fields[name].s)
  }

  lemma SaidIsTrim(fields: map<string, Json>, name: string, text: string)
    requires Says(fields, name, text)
    ensures Trim(fields[name].s) == text
  {
    var before, after :| Blank(before) && Blank(after) && fields[name].s == Padded(before, text, after);
    TrimDropsPadding(before, text, after);
  }

  /** The finding's message is its own, and so is its severity; a blank severity is none. */
  lemma FindingIsRead(fields: map<string, Json>, message: string)
    requires Says(fields, "message", message)
    ensures ParseFinding(Object(fields)).Ok? && ParseFinding(Object(fields)).value.message == message
    ensures forall severity :: Says(fields, "severity", severity) ==>
      ParseFinding(Object(fields)).value.severity == Some(severity)
    ensures SaysNothing(fields, "severity") ==> ParseFinding(Object(fields)).value.severity == None
  {
    SaidIsTrim(fields, "message", message);
    forall severity | Says(fields, "severity", severity)
      ensures ParseFinding(Object(fields)).value.severity == Some(severity)
    {
      SaidIsTrim(fields, "severity", severity);
    }
    if "severity" in fields && fields["severity"].Str? {
      TrimOfBlank(fields["severity"].s);
    }
  }

  /** Its criterion is a positive number of 32 bits, or the first number of a text if it is
      one; anything else is none. */
  lemma CriterionIsRead(fields: map<string, Json>, message: string)
    requires Says(fields, "message", message)
    ensures ParseFinding(Object(fields)).Ok?
    ensures var criterion := ParseFinding(Object(fields)).value.criterion;
      && ("criterion" !in fields ==> criterion == None)
      && ("criterion" in fields ==> match fields["criterion"]
          case Number(Some(n)) => criterion == if 1 <= n <= 0xFFFF_FFFF then Some(n) else None
          case Str(s) => (forall c <- s :: !('0' <= c <= '9')) ==> criterion == None
          case _ => criterion == None)
  {
    SaidIsTrim(fields, "message", message);
    if "criterion" in fields && fields["criterion"].Str? {
      var s := fields["criterion"].s;
      if forall c <- s :: !('0' <= c <= '9') {
        DigitsFromAfter(s, []);
        assert s + [] == s;
      }
    }
  }

  lemma CriterionTextIsRead(fields: map<string, Json>, message: string, before: string, n: nat, after: string)
    requires Says(fields, "message", message)
    requires "criterion" in fields && fields["criterion"] == Str(before + (Decimal.Render(n) + after))
    requires (forall c <- before :: !('0' <= c <= '9')) && (after != [] ==> !('0' <= after[0] <= '9'))
    ensures ParseFinding(Object(fields)).Ok?
    ensures ParseFinding(Object(fields)).value.criterion == if 1 <= n <= 0xFFFF_FFFF then Some(n) else None
  {
    SaidIsTrim(fields, "message", message);
    CriterionIsReadBack(before, n, after);
  }
}
