/**
  The contact form's submit handler, up to the `mailto:` URL it navigates to: the
  subject with its default and the fixed nine-line message body.
*/
module Contact {
  import opened Wrappers
  import opened JsString

  const DefaultSubject := "Full-time role opportunity"

  /** The third line of the body, "I am reaching out about a full-time role opportunity.",
      spelled as a concatenation so that the verifier reasons about it one part at a time. */
  const Intro := "I am reaching out " + "about a full-time " + "role opportunity."

  lemma DefaultSubjectTrimmed()
    ensures DefaultSubject != "" && IsTrimmed(DefaultSubject)
  {
    assert DefaultSubject[0] == 'F' && DefaultSubject[|DefaultSubject| - 1] == 'y';
  }

  /** An input's value, or "" when the element is missing (`?.value || ""`). */
  function FieldValue(input: Option<string>): string {
    if input.Some? then input.value else ""
  }

  /** The subject: the trimmed input, or the default when that is empty. */
  function Subject(input: Option<string>): (r: string)
    ensures r != "" && IsTrimmed(r)
    ensures !AllWhite(FieldValue(input)) ==> r == Trim(FieldValue(input))
    ensures AllWhite(FieldValue(input)) ==> r == DefaultSubject
  {
    TrimEmptyIff(FieldValue(input));
    DefaultSubjectTrimmed();
    var s := Trim(FieldValue(input));
    if s != "" then s else DefaultSubject
  }

  /** The first eight lines of the body, before the message. */
  function Header(name: string, email: string): seq<string> {
    ["Hello Antonia,", "", Intro, "",
     "Name: " + name, "Email: " + email, "", "Message:"]
  }

  /** The body: the nine lines, with the trimmed name, email and message, joined by
      line feeds. */
  function Body(name: Option<string>, email: Option<string>, message: Option<string>): string {
    Join(Header(Trim(FieldValue(name)), Trim(FieldValue(email))) + [Trim(FieldValue(message))], '\n')
  }

  lemma FixedLinesHaveNoLineFeed()
    ensures '\n' !in "Hello Antonia," && '\n' !in Intro && '\n' !in "Message:"
    ensures '\n' !in "Name: " && '\n' !in "Email: "
  {
  }

  lemma HeaderHasNoLineFeed(name: string, email: string)
    requires '\n' !in name && '\n' !in email
    ensures NoSep(Header(name, email), '\n')
  {
    FixedLinesHaveNoLineFeed();
    assert '\n' !in "Name: " + name;
    assert '\n' !in "Email: " + email;
  }

  /** Read back line by line, the body gives the eight fixed lines with the name and
      email in place, followed by the lines of the trimmed message. Names and e-mail
      addresses are single-line inputs. */
  lemma BodyLines(name: Option<string>, email: Option<string>, message: Option<string>)
    requires '\n' !in FieldValue(name) && '\n' !in FieldValue(email)
    ensures Split(Body(name, email, message), '\n')
         == Header(Trim(FieldValue(name)), Trim(FieldValue(email))) + Split(Trim(FieldValue(message)), '\n')
  {
    var n, e := Trim(FieldValue(name)), Trim(FieldValue(email));
    TrimSubstring(FieldValue(name), '\n');
    TrimSubstring(FieldValue(email), '\n');
    HeaderHasNoLineFeed(n, e);
    SplitJoinLast(Header(n, e), Trim(FieldValue(message)), '\n');
  }

  /** The trimmed message is recovered from the body's lines after the eighth. */
  lemma MessageRecoverable(name: Option<string>, email: Option<string>, message: Option<string>)
    requires '\n' !in FieldValue(name) && '\n' !in FieldValue(email)
    ensures |Split(Body(name, email, message), '\n')| >= 9
    ensures Join(Split(Body(name, email, message), '\n')[8..], '\n') == Trim(FieldValue(message))
  {
    BodyLines(name, email, message);
    var m := Trim(FieldValue(message));
    HeaderLength(Trim(FieldValue(name)), Trim(FieldValue(email)));
    DropFront(Header(Trim(FieldValue(name)), Trim(FieldValue(email))), Split(m, '\n'));
    JoinSplit(m, '\n');
  }

  lemma HeaderLength(name: string, email: string)
    ensures |Header(name, email)| == 8
  {
  }

  lemma DropFront(h: seq<string>, t: seq<string>)
    ensures (h + t)[|h|..] == t
  {
  }

  /** Trimming cannot introduce a character. */
  lemma TrimSubstring(s: string, ch: char)
    requires ch !in s
    ensures ch !in Trim(s)
  {
    var lead, trail := TrimDecomposes(s);
    assert forall c :: c in Trim(s) ==> c in lead + Trim(s) + trail;
  }
}
