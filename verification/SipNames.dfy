/** Header names of SIP messages: compact forms (section 7.3.3 of RFC 3261), common spellings, and
    the canonical spelling under which a name is stored and compared. */
module SipNames {
  import opened Basics
  import opened Text

  const CONTENT_LENGTH: string := "Content-Length"

  /** The long name of a single-letter form. */
  function CompactForm(lower: string): Option<string> {
    if |lower| != 1 then None
    else
      match lower[0]
      case 'v' => Some("Via")
      case 'f' => Some("From")
      case 't' => Some("To")
      case 'i' => Some("Call-ID")
      case 'm' => Some("Contact")
      case 'l' => Some(CONTENT_LENGTH)
      case 'c' => Some("Content-Type")
      case 's' => Some("Subject")
      case 'k' => Some("Supported")
      case 'o' => Some("Allow-Events")
      case 'e' => Some("Content-Encoding")
      case _ => None
  }

  /** The canonical spelling of a common name. */
  function KnownForm(lower: string): Option<string> {
    if lower == "via" then Some("Via")
    else if lower == "from" then Some("From")
    else if lower == "to" then Some("To")
    else if lower == "call-id" then Some("Call-ID")
    else if lower == "cseq" then Some("CSeq")
    else if lower == "contact" then Some("Contact")
    else if lower == "content-length" then Some(CONTENT_LENGTH)
    else if lower == "content-type" then Some("Content-Type")
    else if lower == "max-forwards" then Some("Max-Forwards")
    else if lower == "expires" then Some("Expires")
    else if lower == "user-agent" then Some("User-Agent")
    else if lower == "www-authenticate" then Some("WWW-Authenticate")
    else if lower == "authorization" then Some("Authorization")
    else if lower == "date" then Some("Date")
    else if lower == "subject" then Some("Subject")
    else None
  }

  /** The first letter of every dash-separated part in upper case. */
  function Title(lower: string): (r: string)
    ensures |r| == |lower|
    ensures forall k :: 0 <= k < |lower| ==>
      r[k] == if k == 0 || lower[k - 1] == '-' then ToUpper(lower[k]) else lower[k]
  {
    seq(|lower|, k requires 0 <= k < |lower| => if k == 0 || lower[k - 1] == '-' then ToUpper(lower[k]) else lower[k])
  }

  function CanonName(name: string): string {
    var lower := Lower(TrimSpace(name));
    if CompactForm(lower).Some? then CompactForm(lower).value
    else if KnownForm(lower).Some? then KnownForm(lower).value
    else Title(lower)
  }

  predicate Plain(s: string) {
    Trimmed(s) && Without(s, ':') && Without(s, '\n')
  }

  lemma {:induction false} LowerOfTitle(s: string)
    ensures Lower(Title(Lower(s))) == Lower(s)
  {
    var l, t := Lower(s), Title(Lower(s));
    forall k | 0 <= k < |s|
      ensures ToLower(t[k]) == l[k]
    {
      assert l[k] == ToLower(s[k]);
    }
  }

  lemma TitleIsTrimmed(s: string)
    requires Trimmed(s)
    ensures Trimmed(Title(Lower(s)))
  {
    if s != [] {
      var l, t := Lower(s), Title(Lower(s));
      assert l[0] == ToLower(s[0]) && t[0] == ToUpper(l[0]);
      assert l[|s| - 1] == ToLower(s[|s| - 1]);
    }
  }

  lemma TitleWithout(s: string, c: char)
    requires Without(s, c) && (c == ':' || c == '\n')
    ensures Without(Title(Lower(s)), c)
  {
    var l, t := Lower(s), Title(Lower(s));
    forall k | 0 <= k < |t|
      ensures t[k] != c
    {
      assert l[k] == ToLower(s[k]) && s[k] != c;
    }
  }

  /** `long` is trimmed, free of separators, and `lower` in mixed case. */
  predicate Spells(long: string, lower: string) {
    Lower(long) == lower && Plain(long)
  }

  lemma {:induction false} ShortNamesSpell()
    ensures Spells("Via", "via") && Spells("From", "from") && Spells("To", "to") && Spells("Date", "date")
  {
  }

  lemma {:induction false} CallNamesSpell()
    ensures Spells("Call-ID", "call-id") && Spells("CSeq", "cseq") && Spells("Contact", "contact")
  {
  }

  lemma {:induction false} ContentNamesSpell()
    ensures Spells(CONTENT_LENGTH, "content-length") && Spells("Content-Type", "content-type")
  {
  }

  lemma ForwardsSpells()
    ensures Spells("Max-Forwards", "max-forwards")
  {
  }

  lemma {:induction false} AgentNamesSpell()
    ensures Spells("Expires", "expires") && Spells("User-Agent", "user-agent")
  {
  }

  lemma {:induction false} AuthenticateSpells()
    ensures Spells("WWW-Authenticate", "www-authenticate")
  {
  }

  lemma {:induction false} LastNamesSpell()
    ensures Spells("Authorization", "authorization") && Spells("Subject", "subject")
  {
  }

  /** Every entry of the table of names maps the lower-case form of its value. */
  lemma {:induction false} KnownFormSpells(lower: string)
    ensures KnownForm(lower).Some? ==> Spells(KnownForm(lower).value, lower)
  {
    ShortNamesSpell();
    CallNamesSpell();
    ContentNamesSpell();
    ForwardsSpells();
    AgentNamesSpell();
    AuthenticateSpells();
    LastNamesSpell();
  }

  lemma {:induction false} OtherNamesSpell()
    ensures Spells("Supported", "supported") && Spells("Allow-Events", "allow-events")
  {
  }

  lemma {:induction false} EncodingSpells()
    ensures Spells("Content-Encoding", "content-encoding")
  {
  }

  lemma {:induction false} OtherNamesTitle()
    ensures Title("supported") == "Supported" && Title("allow-events") == "Allow-Events"
    ensures Title("content-encoding") == "Content-Encoding"
  {
  }

  /** A name that is its own canonical form. */
  predicate StandsForItself(long: string) {
    Plain(long) && |long| > 1 && CanonName(long) == long
  }

  lemma TableNameStands(long: string, lower: string)
    requires Spells(long, lower) && |long| > 1
    requires KnownForm(lower) == Some(long) || (KnownForm(lower).None? && Title(lower) == long)
    ensures StandsForItself(long)
  {
    TrimTrimmed(long);
  }

  lemma KnownNamesStand()
    ensures StandsForItself("Via") && StandsForItself("From") && StandsForItself("To")
    ensures StandsForItself("Call-ID") && StandsForItself("Contact")
  {
    ShortNamesSpell();
    CallNamesSpell();
    TableNameStands("Via", "via");
    TableNameStands("From", "from");
    TableNameStands("To", "to");
    TableNameStands("Call-ID", "call-id");
    TableNameStands("Contact", "contact");
  }

  lemma {:induction false} MoreNamesStand()
    ensures StandsForItself(CONTENT_LENGTH) && StandsForItself("Content-Type") && StandsForItself("Subject")
  {
    ContentNamesSpell();
    LastNamesSpell();
    TableNameStands(CONTENT_LENGTH, "content-length");
    TableNameStands("Content-Type", "content-type");
    TableNameStands("Subject", "subject");
  }

  lemma {:induction false} OtherNamesStand()
    ensures StandsForItself("Supported") && StandsForItself("Allow-Events") && StandsForItself("Content-Encoding")
  {
    OtherNamesSpell();
    EncodingSpells();
    OtherNamesTitle();
    TableNameStands("Supported", "supported");
    TableNameStands("Allow-Events", "allow-events");
    TableNameStands("Content-Encoding", "content-encoding");
  }

  lemma {:induction false} CompactCases(lower: string, holds: string -> bool)
    requires CompactForm(lower).Some?
    requires holds("Via") && holds("From") && holds("To") && holds("Call-ID") && holds("Contact")
    requires holds(CONTENT_LENGTH) && holds("Content-Type") && holds("Subject")
    requires holds("Supported") && holds("Allow-Events") && holds("Content-Encoding")
    ensures holds(CompactForm(lower).value)
  {
  }

  /** The long name of a compact form is its own canonical form. */
  lemma CompactFormStands(lower: string)
    requires CompactForm(lower).Some?
    ensures StandsForItself(CompactForm(lower).value)
  {
    KnownNamesStand();
    MoreNamesStand();
    OtherNamesStand();
    CompactCases(lower, long => StandsForItself(long));
  }

  lemma KnownFormStays(lower: string)
    requires KnownForm(lower).Some? && CompactForm(lower).None?
    ensures CanonName(KnownForm(lower).value) == KnownForm(lower).value
  {
    KnownFormSpells(lower);
    TrimTrimmed(KnownForm(lower).value);
  }

  lemma TitleStays(s: string)
    requires Trimmed(s) && CompactForm(Lower(s)).None? && KnownForm(Lower(s)).None?
    ensures CanonName(Title(Lower(s))) == Title(Lower(s))
  {
    LowerOfTitle(s);
    TitleIsTrimmed(s);
    TrimTrimmed(Title(Lower(s)));
  }

  /** A canonical name stands for itself. */
  lemma CanonNameIsIdempotent(name: string)
    ensures CanonName(CanonName(name)) == CanonName(name)
  {
    var lower := Lower(TrimSpace(name));
    if CompactForm(lower).Some? {
      CompactFormStands(lower);
    } else if KnownForm(lower).Some? {
      KnownFormStays(lower);
    } else {
      TrimSpaceTrims(name);
      TitleStays(TrimSpace(name));
    }
  }

  /** A canonical name is trimmed, and canonical spelling brings no separator in. */
  lemma CanonNameIsPlain(name: string)
    requires Without(name, ':') && Without(name, '\n')
    ensures Plain(CanonName(name))
  {
    var lower := Lower(TrimSpace(name));
    TrimSpaceTrims(name);
    if CompactForm(lower).Some? {
      CompactFormStands(lower);
    } else if KnownForm(lower).Some? {
      KnownFormSpells(lower);
    } else {
      TitleIsTrimmed(TrimSpace(name));
      TitleWithout(TrimSpace(name), ':');
      TitleWithout(TrimSpace(name), '\n');
    }
  }

  /** A name longer than one letter keeps its letters; only their case becomes canonical. */
  lemma CanonNameSpells(name: string)
    requires |TrimSpace(name)| != 1
    ensures Lower(CanonName(name)) == Lower(TrimSpace(name))
  {
    var lower := Lower(TrimSpace(name));
    if KnownForm(lower).Some? {
      KnownFormSpells(lower);
    } else {
      LowerOfTitle(TrimSpace(name));
    }
  }

  /** So two such names stand for one header exactly when they differ in case only. */
  lemma OnlyCaseIsIgnored(a: string, b: string)
    requires |TrimSpace(a)| != 1 && |TrimSpace(b)| != 1
    ensures CanonName(a) == CanonName(b) <==> Lower(TrimSpace(a)) == Lower(TrimSpace(b))
  {
    CanonNameSpells(a);
    CanonNameSpells(b);
  }

  /** The single letters of section 7.3.3 of RFC 3261 and its extensions, in either case. */
  lemma LettersStandFor(name: string)
    ensures var l, r := Lower(TrimSpace(name)), CanonName(name);
      && (l == "v" ==> r == "Via") && (l == "f" ==> r == "From") && (l == "t" ==> r == "To")
      && (l == "i" ==> r == "Call-ID") && (l == "m" ==> r == "Contact") && (l == "l" ==> r == "Content-Length")
      && (l == "c" ==> r == "Content-Type") && (l == "s" ==> r == "Subject") && (l == "k" ==> r == "Supported")
      && (l == "o" ==> r == "Allow-Events") && (l == "e" ==> r == "Content-Encoding")
  {
  }

  /** The names whose capitals are not just those of their parts. */
  lemma OddCapitals(name: string)
    ensures var l, r := Lower(TrimSpace(name)), CanonName(name);
      (l == "call-id" ==> r == "Call-ID") && (l == "cseq" ==> r == "CSeq")
      && (l == "www-authenticate" ==> r == "WWW-Authenticate")
  {
  }
}
