/** Whole descriptions: ice_generate_sdp and ice_parse_sdp of src/ice.c. */
module SdpDescription {
  import opened Basics
  import opened Text
  import opened Sdp
  import StableSort

  // ---------- printing ----------

  function Line(text: string): string {
    text + "\r\n"
  }

  function AllLines(lines: seq<string>): string {
    if lines == [] then "" else Line(lines[0]) + AllLines(lines[1..])
  }

  /** Peer-reflexive candidates and those of other transports are left out. */
  function PublicOnly(cs: seq<Candidate>): seq<Candidate> {
    if cs == [] then []
    else PublicOnly(cs[..|cs| - 1]) + if Public(cs[|cs| - 1]) then [cs[|cs| - 1]] else []
  }

  function CandidateLines(cs: seq<Candidate>): seq<string>
    requires forall i :: 0 <= i < |cs| ==> CanPrint(cs[i])
  {
    seq(|cs|, i requires 0 <= i < |cs| => PrintCandidate(cs[i]))
  }

  function Ending(finished: bool): seq<string> {
    if finished then ["a=end-of-candidates", "a=ice-options:ice2"] else ["a=ice-options:ice2,trickle"]
  }

  /** The characters allowed in user name fragments and passwords. */
  predicate IsIceChar(c: char) {
    IsAlpha(c) || IsDigit(c) || c == '+' || c == '/'
  }

  predicate IsIceString(s: string, least: nat) {
    least <= |s| <= 256 && forall i :: 0 <= i < |s| ==> IsIceChar(s[i])
  }

  predicate Printable(cs: seq<Candidate>) {
    forall i :: 0 <= i < |cs| && Public(cs[i]) ==> WellFormed(cs[i])
  }

  lemma {:induction false} PublicArePrintable(cs: seq<Candidate>)
    requires Printable(cs)
    ensures |PublicOnly(cs)| <= |cs|
    ensures forall i :: 0 <= i < |PublicOnly(cs)| ==>
              PublicOnly(cs)[i] in cs && Public(PublicOnly(cs)[i]) && WellFormed(PublicOnly(cs)[i]) && CanPrint(PublicOnly(cs)[i])
  {
    if cs != [] {
      PublicArePrintable(cs[..|cs| - 1]);
    }
  }

  /** On a lite description the second line written goes over the first two. */
  function Head(d: Description): seq<string> {
    if d.lite then ["a=ice-lite"] else ["a=ice-ufrag:" + d.ufrag, "a=ice-pwd:" + d.pwd]
  }

  function Lines(d: Description): seq<string>
    requires Printable(d.candidates)
  {
    PublicArePrintable(d.candidates);
    Head(d) + CandidateLines(PublicOnly(d.candidates)) + Ending(d.finished)
  }

  function Print(d: Description): string
    requires Printable(d.candidates)
  {
    AllLines(Lines(d))
  }

  // ---------- parsing ----------

  const EMPTY := Description("", "", false, [], false)

  function Word256(s: string, otherwise: string): string {
    var w := ScanWord(s, 256);
    if w.None? then otherwise else w.value.value
  }

  /** ice_add_candidate: no more than the array holds, and a number for an unnamed foundation. */
  function Add(d: Description, c: Candidate): Description {
    if |d.candidates| >= MAX_CANDIDATES then d
    else
      var named := if c.foundation == "-" then c.(foundation := Decimal(|d.candidates| + 1)) else c;
      d.(candidates := d.candidates + [named])
  }

  /** parse_sdp_line; none if the line is in error. */
  function ParseLine(d: Description, line: string): Option<Description> {
    if "a=ice-ufrag:" <= line then
      var arg := line[|"a=ice-ufrag:"|..];
      if !IsIceString(arg, 4) then None else Some(d.(ufrag := Word256(arg, d.ufrag)))
    else if "a=ice-pwd:" <= line then
      var arg := line[|"a=ice-pwd:"|..];
      if !IsIceString(arg, 22) then None else Some(d.(pwd := Word256(arg, d.pwd)))
    else if "a=ice-lite" <= line then Some(d.(lite := true))
    else if "a=end-of-candidates" <= line then Some(d.(finished := true))
    else if "a=candidate:" <= line then
      var c := ParseCandidate(line);
      if c.Ok? then Some(Add(d, c.candidate)) else Some(d)
    else Some(d)
  }

  /** The line being collected and the description so far; none after an error. */
  datatype Reading = Reading(buffer: string, so: Option<Description>)

  function Next(r: Reading, c: char): Reading {
    if r.so.None? then r
    else if c == '\n' then
      if r.buffer == "" then r else Reading("", ParseLine(r.so.value, r.buffer))
    else if c != '\r' && |r.buffer| + 1 < LINE_SIZE then r.(buffer := r.buffer + [c])
    else r
  }

  function ReadAll(r: Reading, s: string): Reading
    decreases |s|
  {
    if s == "" then r else ReadAll(Next(r, s[0]), s[1..])
  }

  datatype Result = Parsed(description: Description) | BadLine | MissingUfrag | MissingPwd

  function ByPriority(cs: seq<Candidate>): seq<Candidate> {
    StableSort.Sorted(cs, (c: Candidate) => c.priority)
  }

  function Conclude(r: Reading): Result {
    if r.so.None? then BadLine
    else
      var d := r.so.value.(candidates := ByPriority(r.so.value.candidates));
      if d.ufrag == "" then MissingUfrag
      else if d.pwd == "" then MissingPwd
      else Parsed(d)
  }

  /** ice_parse_sdp. */
  function Parse(s: string): Result {
    Conclude(ReadAll(Reading("", Some(EMPTY)), s))
  }

  // ---------- lines read back ----------

  predicate IsLine(s: string) {
    s != "" && |s| + 1 < LINE_SIZE && forall i :: 0 <= i < |s| ==> s[i] != '\r' && s[i] != '\n'
  }

  lemma {:induction false} ReadText(buffer: string, d: Description, s: string, rest: string)
    requires |buffer| + |s| + 1 < LINE_SIZE && forall i :: 0 <= i < |s| ==> s[i] != '\r' && s[i] != '\n'
    ensures ReadAll(Reading(buffer, Some(d)), s + rest) == ReadAll(Reading(buffer + s, Some(d)), rest)
    decreases |s|
  {
    hide ParseLine;
    if s == "" {
      assert s + rest == rest && buffer + s == buffer;
    } else {
      assert (s + rest)[0] == s[0] && (s + rest)[1..] == s[1..] + rest;
      ReadText(buffer + [s[0]], d, s[1..], rest);
      assert buffer + [s[0]] + s[1..] == buffer + s;
    }
  }

  lemma ReadLine(d: Description, line: string, rest: string)
    requires IsLine(line)
    ensures ReadAll(Reading("", Some(d)), Line(line) + rest) == ReadAll(Reading("", ParseLine(d, line)), rest)
  {
    hide ParseLine;
    assert Line(line) + rest == line + ("\r\n" + rest);
    ReadText("", d, line, "\r\n" + rest);
    assert "" + line == line;
    EndOfLine(Reading(line, Some(d)), rest);
  }

  lemma EndOfLine(r: Reading, rest: string)
    ensures ReadAll(r, "\r\n" + rest) == ReadAll(Next(Next(r, '\r'), '\n'), rest)
  {
    hide Next;
    var s := "\r\n" + rest;
    assert s[0] == '\r' && s[1..][0] == '\n' && s[1..][1..] == rest;
  }

  function ParseLines(d: Description, lines: seq<string>): Option<Description>
    decreases |lines|
  {
    if lines == [] then Some(d)
    else
      var e := ParseLine(d, lines[0]);
      if e.None? then None else ParseLines(e.value, lines[1..])
  }

  lemma {:induction false} ReadLines(d: Description, lines: seq<string>)
    requires forall i :: 0 <= i < |lines| ==> IsLine(lines[i])
    requires ParseLines(d, lines).Some?
    ensures ReadAll(Reading("", Some(d)), AllLines(lines)) == Reading("", ParseLines(d, lines))
    decreases |lines|
  {
    hide ParseLine, ReadAll;
    if lines == [] {
      ReadNothing(Reading("", Some(d)));
    } else {
      ReadLine(d, lines[0], AllLines(lines[1..]));
      ReadLines(ParseLine(d, lines[0]).value, lines[1..]);
    }
  }

  lemma ReadNothing(r: Reading)
    ensures ReadAll(r, "") == r
  {
  }

  lemma {:induction false} ParseLinesAppend(d: Description, a: seq<string>, b: seq<string>)
    requires ParseLines(d, a).Some?
    ensures ParseLines(d, a + b) == ParseLines(ParseLines(d, a).value, b)
    decreases |a|
  {
    hide ParseLine;
    if a == [] {
      assert a + b == b;
    } else {
      assert (a + b)[0] == a[0] && (a + b)[1..] == a[1..] + b;
      ParseLinesAppend(ParseLine(d, a[0]).value, a[1..], b);
    }
  }

  // ---------- each kind of line ----------

  predicate NoBreak(s: string) {
    forall i :: 0 <= i < |s| ==> s[i] != '\r' && s[i] != '\n'
  }

  lemma NoBreakJoin(a: string, b: string)
    requires NoBreak(a) && NoBreak(b)
    ensures NoBreak(a + b)
  {
  }

  lemma IceStringWord(s: string, least: nat)
    requires IsIceString(s, least) && least > 0
    ensures Word256(s, "") == s && NoBreak(s) && forall otherwise :: Word256(s, otherwise) == s
  {
    assert s + "" == s;
    WordBack(s, "", 256);
  }

  lemma UfragBack(d: Description, ufrag: string)
    requires IsIceString(ufrag, 4)
    ensures ParseLine(d, "a=ice-ufrag:" + ufrag) == Some(d.(ufrag := ufrag)) && IsLine("a=ice-ufrag:" + ufrag)
  {
    hide ParseCandidate, Word256;
    IceStringWord(ufrag, 4);
    var line := "a=ice-ufrag:" + ufrag;
    assert line[|"a=ice-ufrag:"|..] == ufrag;
    NoBreakJoin("a=ice-ufrag:", ufrag);
  }

  lemma PwdBack(d: Description, pwd: string)
    requires IsIceString(pwd, 22)
    ensures ParseLine(d, "a=ice-pwd:" + pwd) == Some(d.(pwd := pwd)) && IsLine("a=ice-pwd:" + pwd)
  {
    hide ParseCandidate, Word256;
    IceStringWord(pwd, 22);
    var line := "a=ice-pwd:" + pwd;
    assert line[6] == 'p' && "a=ice-ufrag:"[6] == 'u';
    assert line[|"a=ice-pwd:"|..] == pwd;
    NoBreakJoin("a=ice-pwd:", pwd);
  }

  lemma EndingBack(d: Description, finished: bool)
    requires !d.finished
    ensures ParseLines(d, Ending(finished)) == Some(d.(finished := finished))
    ensures forall i :: 0 <= i < |Ending(finished)| ==> IsLine(Ending(finished)[i])
  {
    hide ParseCandidate;
    OptionsIgnored(d, "a=ice-options:ice2");
    OptionsIgnored(d.(finished := true), "a=ice-options:ice2");
    OptionsIgnored(d, "a=ice-options:ice2,trickle");
    EndRead(d);
    if finished {
      assert Ending(finished)[1..] == ["a=ice-options:ice2"];
      assert ["a=ice-options:ice2"][1..] == [];
    } else {
      assert Ending(finished)[1..] == [];
    }
  }

  lemma EndRead(d: Description)
    ensures ParseLine(d, "a=end-of-candidates") == Some(d.(finished := true)) && IsLine("a=end-of-candidates")
  {
    hide ParseCandidate;
    var line := "a=end-of-candidates";
    assert line[2] == 'e' && "a=ice-ufrag:"[2] == 'i' && "a=ice-pwd:"[2] == 'i' && "a=ice-lite"[2] == 'i';
  }

  lemma OptionsIgnored(d: Description, line: string)
    requires line == "a=ice-options:ice2" || line == "a=ice-options:ice2,trickle"
    ensures ParseLine(d, line) == Some(d) && IsLine(line)
  {
    OptionsAreLines();
    OtherLine(d, line);
  }

  lemma OptionsAreLines()
    ensures IsLine("a=ice-options:ice2") && IsLine("a=ice-options:ice2,trickle")
  {
  }

  /** A line that starts like an attribute of ICE, but like none that is known. */
  lemma OtherLine(d: Description, line: string)
    requires |line| > 6 && line[2] == 'i' && line[6] == 'o'
    ensures ParseLine(d, line) == Some(d)
  {
    hide ParseCandidate;
    assert "a=ice-ufrag:"[6] == 'u' && "a=ice-pwd:"[6] == 'p' && "a=ice-lite"[6] == 'l';
    assert "a=end-of-candidates"[2] == 'e' && "a=candidate:"[2] == 'c';
  }

  // ---------- whatever is parsed ----------

  /** The user name fragment and the password, if there, are what the standard allows, and there are no more
      candidates than the array holds. */
  predicate Sound(d: Description) {
    && (d.ufrag == "" || IsIceString(d.ufrag, 4))
    && (d.pwd == "" || IsIceString(d.pwd, 22))
    && |d.candidates| <= 30
  }

  lemma LineKeepsSound(d: Description, line: string)
    requires Sound(d) && ParseLine(d, line).Some?
    ensures Sound(ParseLine(d, line).value)
  {
    hide ParseCandidate, IsIceString, Word256;
    if "a=ice-ufrag:" <= line {
      WordIsIce(line[|"a=ice-ufrag:"|..], d.ufrag, 4);
    } else if "a=ice-pwd:" <= line {
      WordIsIce(line[|"a=ice-pwd:"|..], d.pwd, 22);
    }
  }

  /** What is checked is what is kept. */
  lemma WordIsIce(s: string, otherwise: string, least: nat)
    requires IsIceString(s, least) && 0 < least
    ensures Word256(s, otherwise) == s
  {
    hide ScanWord;
    WordBack(s, "", 256);
    assert s + "" == s;
  }

  lemma {:induction false} TextKeepsSound(r: Reading, s: string)
    requires r.so.Some? ==> Sound(r.so.value)
    ensures ReadAll(r, s).so.Some? ==> Sound(ReadAll(r, s).so.value)
    decreases |s|
  {
    hide ParseLine, Sound;
    if s != "" {
      if r.so.Some? && ParseLine(r.so.value, r.buffer).Some? {
        LineKeepsSound(r.so.value, r.buffer);
      }
      TextKeepsSound(Next(r, s[0]), s[1..]);
    }
  }

  /** Every text: what is parsed has a fragment of at least 4 and a password of at least 22 of the characters
      that are allowed, no more than 30 candidates, and these by descending priority; without a fragment or
      a password nothing is. */
  lemma ParsedIsSound(text: string)
    ensures var r := Parse(text);
            r.Parsed? ==>
              && IsIceString(r.description.ufrag, 4) && IsIceString(r.description.pwd, 22) && |r.description.candidates| <= 30
              && forall i, j :: 0 <= i < j < |r.description.candidates| ==>
                   r.description.candidates[i].priority >= r.description.candidates[j].priority
  {
    hide ReadAll, IsIceString;
    assert Sound(EMPTY);
    TextKeepsSound(Reading("", Some(EMPTY)), text);
    var so := ReadAll(Reading("", Some(EMPTY)), text).so;
    if so.Some? {
      var cs := so.value.candidates;
      CandidatesSorted(cs, 0);
      assert |multiset(ByPriority(cs))| == |multiset(cs)|;
    }
  }

  // ---------- candidate lines ----------

  /** A candidate line is never an error: one that can be used is added while there is room, under a number if
      its foundation is a dash, and any other is passed over. */
  lemma CandidateLineRead(d: Description, line: string)
    requires "a=candidate:" <= line
    ensures var c := ParseCandidate(line);
            var r := ParseLine(d, line);
            && r.Some?
            && (!c.Ok? || |d.candidates| >= 30 ==> r.value == d)
            && (c.Ok? && |d.candidates| < 30 ==>
                  r.value == d.(candidates := d.candidates + [if c.candidate.foundation == "-"
                                                              then c.candidate.(foundation := Decimal(|d.candidates| + 1)) else c.candidate]))
  {
    hide ParseCandidate;
    assert line[2] == 'c' && "a=ice-ufrag:"[2] == 'i' && "a=ice-pwd:"[2] == 'i' && "a=ice-lite"[2] == 'i' && "a=end-of-candidates"[2] == 'e';
  }

  lemma CandidateLineBack(d: Description, c: Candidate)
    requires Public(c) && WellFormed(c) && c.foundation != "-" && |d.candidates| < MAX_CANDIDATES
    ensures ParseLine(d, PrintCandidate(c)) == Some(d.(candidates := d.candidates + [c]))
  {
    hide ParseCandidate, Words;
    CandidateBack(c);
    var line := PrintCandidate(c);
    assert line[2] == 'c' && "a=ice-ufrag:"[2] == 'i' && "a=ice-pwd:"[2] == 'i' && "a=ice-lite"[2] == 'i' && "a=end-of-candidates"[2] == 'e';
    assert "a=candidate:" <= line;
  }

  lemma {:induction false} CandidatesBack(d: Description, cs: seq<Candidate>)
    requires |d.candidates| + |cs| <= MAX_CANDIDATES
    requires forall i :: 0 <= i < |cs| ==> CanPrint(cs[i]) && Public(cs[i]) && WellFormed(cs[i]) && cs[i].foundation != "-"
    ensures ParseLines(d, CandidateLines(cs)) == Some(d.(candidates := d.candidates + cs))
    decreases |cs|
  {
    hide ParseLine, PrintCandidate;
    if cs == [] {
      assert d.candidates + cs == d.candidates;
    } else {
      CandidateLineBack(d, cs[0]);
      var lines := CandidateLines(cs);
      assert lines[0] == PrintCandidate(cs[0]) && lines[1..] == CandidateLines(cs[1..]);
      var e := d.(candidates := d.candidates + [cs[0]]);
      CandidatesBack(e, cs[1..]);
      assert d.candidates + [cs[0]] + cs[1..] == d.candidates + cs;
    }
  }

  function Pow10(k: nat): nat {
    if k == 0 then 1 else 10 * Pow10(k - 1)
  }

  lemma {:induction false} DecimalLength(n: nat, k: nat)
    requires k > 0 && n < Pow10(k)
    ensures |Decimal(n)| <= k
    decreases k
  {
    if n >= 10 {
      assert k > 1;
      DecimalLength(n / 10, k - 1);
    }
  }

  lemma TenDigits(n: nat)
    requires n < UINT_LIMIT
    ensures |Decimal(n)| <= 10 && NoBreak(Decimal(n))
  {
    hide Decimal;
    assert Pow10(2) == 100 && Pow10(4) == 10000 && Pow10(6) == 1000000 && Pow10(8) == 100000000 && Pow10(10) == 10000000000;
    DecimalLength(n, 10);
    DecimalDigits(n);
  }

  lemma WordNoBreak(w: string, width: nat)
    requires IsWord(w, width)
    ensures NoBreak(w)
  {
  }

  lemma NamesShort(c: Candidate)
    ensures NoBreak(KindName(c.kind)) && |KindName(c.kind)| <= 5
    ensures NoBreak(TransportName(c.transport)) && |TransportName(c.transport)| == 3
    ensures NoBreak(Suffix(c)) && |Suffix(c)| <= 22
  {
  }

  lemma TailIsLine(c: Candidate)
    requires WellFormed(c)
    ensures NoBreak(AfterPriority(c, KindName(c.kind), Suffix(c))) && |AfterPriority(c, KindName(c.kind), Suffix(c))| <= 400
  {
    hide KindName, Suffix, NoBreak;
    NamesShort(c);
    WordNoBreak(c.hostname, 256);
    WordNoBreak(c.service, 32);
    SpaceAndTyp();
    var kind := KindName(c.kind) + Suffix(c);
    NoBreakJoin(KindName(c.kind), Suffix(c));
    NoBreakJoin(" ", kind);
    NoBreakJoin("typ", " " + kind);
    NoBreakJoin(" ", "typ" + (" " + kind));
    NoBreakJoin(c.service, " " + ("typ" + (" " + kind)));
    NoBreakJoin(" ", c.service + (" " + ("typ" + (" " + kind))));
    NoBreakJoin(c.hostname, " " + (c.service + (" " + ("typ" + (" " + kind)))));
    NoBreakJoin(" ", c.hostname + (" " + (c.service + (" " + ("typ" + (" " + kind))))));
  }

  lemma SpaceAndTyp()
    ensures NoBreak(" ") && NoBreak("typ") && NoBreak("a=candidate:")
  {
  }

  lemma CandidateIsLine(c: Candidate)
    requires Public(c) && WellFormed(c)
    ensures IsLine(PrintCandidate(c))
  {
    hide AfterPriority, TransportName, Decimal, NoBreak;
    TailIsLine(c);
    NamesShort(c);
    TenDigits(c.component);
    TenDigits(c.priority);
    WordNoBreak(c.foundation, 32);
    SpaceAndTyp();
    var tail := AfterPriority(c, KindName(c.kind), Suffix(c));
    var p := Decimal(c.priority) + tail;
    NoBreakJoin(Decimal(c.priority), tail);
    NoBreakJoin(" ", p);
    NoBreakJoin(TransportName(c.transport), " " + p);
    var t := " " + (TransportName(c.transport) + (" " + p));
    NoBreakJoin(" ", TransportName(c.transport) + (" " + p));
    NoBreakJoin(Decimal(c.component), t);
    NoBreakJoin(" ", Decimal(c.component) + t);
    NoBreakJoin(c.foundation, " " + (Decimal(c.component) + t));
    NoBreakJoin("a=candidate:", Words(c, TransportName(c.transport), KindName(c.kind), Suffix(c)));
    LineFrom(PrintCandidate(c));
  }

  lemma LineFrom(s: string)
    requires NoBreak(s) && 0 < |s| < 1000
    ensures IsLine(s)
  {
  }

  // ---------- the whole description ----------

  /** A description as ice_add_candidate builds it: room for its candidates, and all foundations named. */
  predicate Complete(d: Description) {
    && IsIceString(d.ufrag, 4) && IsIceString(d.pwd, 22)
    && |d.candidates| <= MAX_CANDIDATES && Printable(d.candidates)
    && forall i :: 0 <= i < |d.candidates| ==> d.candidates[i].foundation != "-"
  }

  lemma HeadBack(ufrag: string, pwd: string)
    requires IsIceString(ufrag, 4) && IsIceString(pwd, 22)
    ensures ParseLines(EMPTY, ["a=ice-ufrag:" + ufrag, "a=ice-pwd:" + pwd]) == Some(EMPTY.(ufrag := ufrag, pwd := pwd))
  {
    hide ParseLine;
    UfragBack(EMPTY, ufrag);
    var d := EMPTY.(ufrag := ufrag);
    PwdBack(d, pwd);
    var lines := ["a=ice-ufrag:" + ufrag, "a=ice-pwd:" + pwd];
    assert lines[1..] == ["a=ice-pwd:" + pwd];
    assert lines[1..][1..] == [];
    assert ParseLines(d.(pwd := pwd), []) == Some(d.(pwd := pwd));
  }

  /** Printing a description and parsing the text gives back its fragment, its password, whether it is
      finished, and its public candidates in order of priority. */
  lemma DescriptionBack(d: Description)
    requires Complete(d) && !d.lite
    ensures Parse(Print(d)) == Parsed(d.(candidates := ByPriority(PublicOnly(d.candidates))))
  {
    hide ParseLines, ReadAll, CandidateLines, Ending, AllLines, ByPriority, PublicOnly, Lines;
    HeadBack(d.ufrag, d.pwd);
    LinesBack(d, EMPTY.(ufrag := d.ufrag, pwd := d.pwd));
    AllAreLines(d);
    ReadLines(EMPTY, Lines(d));
  }

  /** A lite description loses its fragment and password, and is refused. */
  lemma LiteIsRefused(d: Description)
    requires Complete(d) && d.lite
    ensures Parse(Print(d)) == MissingUfrag
  {
    hide ParseLines, ReadAll, CandidateLines, Ending, AllLines, ByPriority, PublicOnly, Lines;
    LiteHeadBack();
    LinesBack(d, EMPTY.(lite := true));
    AllAreLines(d);
    ReadLines(EMPTY, Lines(d));
  }

  lemma LiteHeadBack()
    ensures ParseLines(EMPTY, ["a=ice-lite"]) == Some(EMPTY.(lite := true)) && IsLine("a=ice-lite")
  {
    hide ParseCandidate;
    var line := "a=ice-lite";
    assert line[6] == 'l' && "a=ice-ufrag:"[6] == 'u' && "a=ice-pwd:"[6] == 'p';
    assert ["a=ice-lite"][1..] == [];
  }

  /** The lines after the head add the candidates and the end to what the head says. */
  lemma LinesBack(d: Description, start: Description)
    requires Complete(d) && start.candidates == [] && !start.finished
    requires ParseLines(EMPTY, Head(d)) == Some(start)
    ensures ParseLines(EMPTY, Lines(d)) == Some(start.(candidates := PublicOnly(d.candidates), finished := d.finished))
  {
    hide ParseLines, CandidateLines, Ending, PublicOnly;
    var cs := PublicOnly(d.candidates);
    PublicArePrintable(d.candidates);
    CandidatesBack(start, cs);
    assert start.candidates + cs == cs;
    EndingBack(start.(candidates := cs), d.finished);
    ParseLinesAppend(EMPTY, Head(d), CandidateLines(cs));
    ParseLinesAppend(EMPTY, Head(d) + CandidateLines(cs), Ending(d.finished));
  }

  lemma AllAreLines(d: Description)
    requires Complete(d)
    ensures forall i :: 0 <= i < |Lines(d)| ==> IsLine(Lines(d)[i])
  {
    hide IsLine, PrintCandidate, Ending, PublicOnly;
    var cs := PublicOnly(d.candidates);
    PublicArePrintable(d.candidates);
    LiteHeadBack();
    UfragBack(EMPTY, d.ufrag);
    PwdBack(EMPTY, d.pwd);
    EndingBack(EMPTY, d.finished);
    forall i | 0 <= i < |CandidateLines(cs)| ensures IsLine(CandidateLines(cs)[i]) {
      CandidateIsLine(cs[i]);
    }
  }

  /** The candidates come back stably sorted. */
  lemma CandidatesSorted(cs: seq<Candidate>, v: nat)
    ensures StableSort.Descending(ByPriority(cs), (c: Candidate) => c.priority)
    ensures StableSort.OfPriority(ByPriority(cs), (c: Candidate) => c.priority, v) ==
            StableSort.OfPriority(cs, (c: Candidate) => c.priority, v)
    ensures multiset(ByPriority(cs)) == multiset(cs)
  {
    var f := (c: Candidate) => c.priority;
    StableSort.SortedDescends(cs, f);
    StableSort.SortIsStable(cs, f, v);
    StableSort.SortPermutes(cs, f);
  }

  // ---------- both as they run ----------

  lemma {:induction false} AllLinesAppend(a: seq<string>, line: string)
    ensures AllLines(a + [line]) == AllLines(a) + Line(line)
  {
    if a == [] {
      assert a + [line] == [line] && [line][1..] == [];
    } else {
      AllLinesAppend(a[1..], line);
      assert (a + [line])[0] == a[0] && (a + [line])[1..] == a[1..] + [line];
    }
  }

  /** ice_generate_sdp, into a buffer that is large enough: one round per candidate between the head and the
      end. */
  method Generate(d: Description) returns (text: Option<string>)
    requires Printable(d.candidates)
    ensures text == if d.ufrag == "" || d.pwd == "" then None else Some(Print(d))
  {
    hide PrintCandidate, Line, AllLines;
    if d.ufrag == "" || d.pwd == "" {
      return None;
    }
    PublicArePrintable(d.candidates);
    var t := "";
    ghost var done: seq<string> := [];
    NoLines();
    t, done := Put(t, Head(d), done);
    for i := 0 to |d.candidates|
      invariant Printable(d.candidates[..i]) && PrintableSoFar(d.candidates[..i])
      invariant done == Head(d) + CandidateLines(PublicOnly(d.candidates[..i])) && t == AllLines(done)
    {
      var c := d.candidates[i];
      assert d.candidates[..i + 1][..i] == d.candidates[..i];
      PublicArePrintable(d.candidates[..i + 1]);
      if Public(c) {
        AllLinesAppend(done, PrintCandidate(c));
        t := t + Line(PrintCandidate(c));
        done := done + [PrintCandidate(c)];
      }
    }
    assert d.candidates[..|d.candidates|] == d.candidates;
    t, done := Put(t, Ending(d.finished), done);
    return Some(t);
  }

  predicate PrintableSoFar(cs: seq<Candidate>) {
    forall i :: 0 <= i < |PublicOnly(cs)| ==> CanPrint(PublicOnly(cs)[i])
  }

  lemma NoLines()
    ensures AllLines([]) == ""
  {
  }

  method Put(t: string, lines: seq<string>, ghost done: seq<string>) returns (r: string, ghost after: seq<string>)
    requires t == AllLines(done)
    ensures after == done + lines && r == AllLines(after)
  {
    r, after := t, done;
    for i := 0 to |lines|
      invariant after == done + lines[..i] && r == AllLines(after)
    {
      AllLinesAppend(after, lines[i]);
      r := r + Line(lines[i]);
      after := after + [lines[i]];
    }
  }

  /** ice_parse_sdp: characters collected into a line buffer, a line parsed at every line feed. */
  method ParseText(text: string) returns (r: Result)
    ensures r == Parse(text)
  {
    hide ParseLine, ByPriority;
    var buffer := new char[LINE_SIZE](_ => ' ');
    var size := 0;
    var d := EMPTY;
    var i := 0;
    while i < |text|
      invariant 0 <= i <= |text| && size + 1 <= LINE_SIZE
      invariant ReadAll(Reading("", Some(EMPTY)), text) == ReadAll(Reading(buffer[..size], Some(d)), text[i..])
    {
      ghost var before := Reading(buffer[..size], Some(d));
      assert text[i..][0] == text[i] && text[i..][1..] == text[i + 1..];
      if text[i] == '\n' {
        if size != 0 {
          var e := ParseLine(d, buffer[..size]);
          if e.None? {
            FailureStays(Reading("", None), text[i + 1..]);
            return BadLine;
          }
          d := e.value;
          size := 0;
          assert buffer[..0] == "";
        }
      } else if text[i] != '\r' && size + 1 < LINE_SIZE {
        buffer[size] := text[i];
        size := size + 1;
      }
      assert Next(before, text[i]) == Reading(buffer[..size], Some(d));
      i := i + 1;
    }
    var sorted := Sort(d.candidates);
    d := d.(candidates := sorted);
    if d.ufrag == "" {
      return MissingUfrag;
    }
    if d.pwd == "" {
      return MissingPwd;
    }
    return Parsed(d);
  }

  lemma {:induction false} FailureStays(r: Reading, s: string)
    requires r.so.None?
    ensures ReadAll(r, s).so.None?
    decreases |s|
  {
    hide ParseLine;
    if s != "" {
      FailureStays(r, s[1..]);
    }
  }

  method Sort(cs: seq<Candidate>) returns (r: seq<Candidate>)
    ensures r == ByPriority(cs)
  {
    var a := new Candidate[|cs|](i requires 0 <= i < |cs| => cs[i]);
    assert a[..] == cs;
    StableSort.SortInPlace(a, (c: Candidate) => c.priority);
    r := a[..];
  }
}
