/** Session descriptions of src/ice.c: candidates and whole descriptions printed and parsed (section 5 of
    RFC 8839). Resolving the host name is left to the caller. */
module Sdp {
  import opened Basics
  import opened Text
  import StableSort

  const MAX_CANDIDATES := 30
  const LINE_SIZE := 1024

  datatype Kind = UnknownKind | Host | ServerReflexive | PeerReflexive | Relayed

  datatype Transport = Udp | TcpActive | TcpPassive | TcpSo

  datatype Candidate = Candidate(
    kind: Kind,
    priority: nat,
    component: int,
    foundation: string,
    transport: Transport,
    hostname: string,
    service: string)

  datatype Description = Description(ufrag: string, pwd: string, lite: bool, candidates: seq<Candidate>, finished: bool)

  // ---------- printing a candidate ----------

  function KindName(k: Kind): string {
    match k
    case Host => "host"
    case ServerReflexive => "srflx"
    case PeerReflexive => "prflx"
    case Relayed => "relay"
    case UnknownKind => ""
  }

  function TransportName(t: Transport): string {
    if t == Udp then "UDP" else "TCP"
  }

  /** What follows the type. */
  function Suffix(c: Candidate): string {
    if c.transport == TcpActive then " tcptype active"
    else if c.kind == ServerReflexive || c.kind == Relayed then " raddr 0.0.0.0 rport 0"
    else ""
  }

  predicate CanPrint(c: Candidate) {
    c.kind != UnknownKind && (c.transport == Udp || c.transport == TcpActive) && c.component >= 0
  }

  /** ice_generate_candidate_sdp, as one line after the other word. */
  function PrintCandidate(c: Candidate): string
    requires CanPrint(c)
  {
    Line(c, TransportName(c.transport), KindName(c.kind), Suffix(c))
  }

  /** A candidate line with the given words for the transport and the type. */
  function Line(c: Candidate, transport: string, kind: string, suffix: string): string
    requires c.component >= 0
  {
    "a=candidate:" + Words(c, transport, kind, suffix)
  }

  function Words(c: Candidate, transport: string, kind: string, suffix: string): string
    requires c.component >= 0
  {
    c.foundation + (" " + (Decimal(c.component) + (" " + (transport + (" " + (Decimal(c.priority) + AfterPriority(c, kind, suffix)))))))
  }

  function AfterPriority(c: Candidate, kind: string, suffix: string): string {
    " " + (c.hostname + (" " + (c.service + (" " + ("typ" + (" " + (kind + suffix)))))))
  }

  // ---------- parsing a candidate ----------

  datatype Parsed = Ok(candidate: Candidate) | Ignored | Malformed

  /** The nine conversions of the sscanf; `count` says how many succeeded. */
  datatype Scanned = Scanned(
    count: nat,
    foundation: string,
    component: int,
    transport: string,
    priority: int,
    hostname: string,
    service: string,
    kind: string,
    extension: string,
    tcpType: string)

  const NOTHING := Scanned(0, "", 0, "", 0, "", "", "", "", "")

  function Scan(line: string): Scanned {
    var a := ScanWord(line, 32);
    if a.None? then NOTHING
    else
      var b := ScanNumber(a.value.rest);
      if b.None? then NOTHING.(count := 1)
      else
        var d := ScanWord(b.value.rest, 32);
        if d.None? then NOTHING.(count := 2)
        else
          var e := ScanNumber(d.value.rest);
          if e.None? then NOTHING.(count := 3)
          else
            ScanRest(NOTHING.(count := 4, foundation := a.value.value, component := b.value.value,
                              transport := d.value.value, priority := e.value.value), e.value.rest)
  }

  function ScanRest(s: Scanned, rest: string): Scanned {
    var a := ScanWord(rest, 256);
    if a.None? then s
    else
      var b := ScanWord(a.value.rest, 32);
      if b.None? then s.(count := 5)
      else
        var d := ScanLiteral(b.value.rest, "typ");
        if d.None? then s.(count := 6)
        else
          var e := ScanWord(d.value, 32);
          if e.None? then s.(count := 6)
          else ScanSuffix(s.(count := 7, hostname := a.value.value, service := b.value.value, kind := e.value.value), e.value.rest)
  }

  function ScanSuffix(s: Scanned, rest: string): Scanned {
    var a := ScanWord(rest, 7);
    if a.None? then s
    else
      var b := ScanWord(a.value.rest, 7);
      if b.None? then s.(count := 8, extension := a.value.value)
      else s.(count := 9, extension := a.value.value, tcpType := b.value.value)
  }

  function KindOf(name: string): Kind {
    if name == "host" then Host
    else if name == "srflx" then ServerReflexive
    else if name == "relay" then Relayed
    else UnknownKind
  }

  function TransportOf(name: string, tcpType: string): Option<Transport> {
    if name == "TCP" then
      if tcpType == "active" then Some(TcpActive)
      else if tcpType == "passive" then Some(TcpPassive)
      else if tcpType == "so" then Some(TcpSo)
      else None
    else if name == "UDP" then Some(Udp)
    else None
  }

  const UINT_LIMIT := 0x1_0000_0000

  /** parse_sdp_candidate. */
  function ParseCandidate(line: string): Parsed {
    var s := Scan(SkipPrefix(SkipPrefix(line, "a="), "candidate:"));
    if s.count != 7 && s.count != 9 then Malformed
    else
      var kind := KindOf(Lower(s.kind));
      var transport := TransportOf(Upper(s.transport), s.tcpType);
      if kind == UnknownKind || transport.None? then Ignored
      else Ok(Candidate(kind, s.priority % UINT_LIMIT, s.component, s.foundation, transport.value, s.hostname, s.service))
  }

  // ---------- a candidate read back ----------

  /** The fields hold what their arrays can: words of bounded length, and numbers in range. */
  predicate WellFormed(c: Candidate) {
    && IsWord(c.foundation, 32) && IsWord(c.hostname, 256) && IsWord(c.service, 32)
    && 0 <= c.component < UINT_LIMIT && c.priority < UINT_LIMIT
  }

  /** What goes into a description that others can use. */
  predicate Public(c: Candidate) {
    c.kind in {Host, ServerReflexive, Relayed} && (c.transport == Udp || c.transport == TcpActive)
  }

  lemma NamesBack(c: Candidate)
    requires Public(c)
    ensures IsWord(KindName(c.kind), 32) && KindOf(Lower(KindName(c.kind))) == c.kind
    ensures IsWord(TransportName(c.transport), 32)
    ensures Upper(TransportName(c.transport)) == TransportName(c.transport)
  {
    assert Lower("host") == "host" && Lower("srflx") == "srflx" && Lower("relay") == "relay";
    assert Upper("UDP") == "UDP" && Upper("TCP") == "TCP";
  }

  lemma SuffixBack(s: Scanned, c: Candidate)
    requires Public(c) && s.count == 7 && s.tcpType == ""
    ensures EndsWord(Suffix(c))
    ensures var t := ScanSuffix(s, Suffix(c));
            && (t.count == 7 || t.count == 9)
            && t == s.(count := t.count, extension := t.extension, tcpType := t.tcpType)
            && TransportOf(TransportName(c.transport), t.tcpType) == Some(c.transport)
  {
    hide ScanSuffix;
    if c.transport == TcpActive {
      TcpSuffixBack(s);
    } else if c.kind == ServerReflexive || c.kind == Relayed {
      AddressSuffixBack(s);
    } else {
      NoSuffixBack(s);
    }
  }

  lemma TcpSuffixBack(s: Scanned)
    ensures ScanSuffix(s, " tcptype active") == s.(count := 9, extension := "tcptype", tcpType := "active")
  {
    hide ScanWord;
    TcpSuffixWords();
    WordBack("tcptype", " " + ("active" + ""), 7);
    WordBack("active", "", 7);
  }

  lemma TcpSuffixWords()
    ensures " tcptype active" == " " + ("tcptype" + (" " + ("active" + "")))
    ensures IsWord("tcptype", 7) && IsWord("active", 7)
  {
  }

  lemma AddressSuffixBack(s: Scanned)
    ensures ScanSuffix(s, " raddr 0.0.0.0 rport 0") == s.(count := 9, extension := "raddr", tcpType := "0.0.0.0")
  {
    hide ScanWord;
    AddressSuffixWords();
    WordBack("raddr", " " + ("0.0.0.0" + " rport 0"), 7);
    WordBack("0.0.0.0", " rport 0", 7);
  }

  lemma AddressSuffixWords()
    ensures " raddr 0.0.0.0 rport 0" == " " + ("raddr" + (" " + ("0.0.0.0" + " rport 0")))
    ensures IsWord("raddr", 7) && IsWord("0.0.0.0", 7)
  {
  }

  lemma NoSuffixBack(s: Scanned)
    ensures ScanSuffix(s, "") == s
  {
  }

  lemma RestBack(s: Scanned, c: Candidate, kind: string, suffix: string)
    requires WellFormed(c) && IsWord(kind, 32) && EndsWord(suffix)
    ensures EndsWord(AfterPriority(c, kind, suffix))
    ensures ScanRest(s, AfterPriority(c, kind, suffix)) ==
              ScanSuffix(s.(count := 7, hostname := c.hostname, service := c.service, kind := kind), suffix)
  {
    hide ScanWord, ScanLiteral, ScanSuffix;
    var last := " " + (kind + suffix);
    var typ := " " + ("typ" + last);
    var service := " " + (c.service + typ);
    WordBack(c.hostname, service, 256);
    WordBack(c.service, typ, 32);
    LiteralBack("typ", last);
    WordBack(kind, suffix, 32);
  }

  lemma ScanBack(c: Candidate, transport: string, kind: string, suffix: string)
    requires WellFormed(c) && IsWord(transport, 32) && IsWord(kind, 32) && EndsWord(suffix)
    ensures Scan(Words(c, transport, kind, suffix)) ==
              ScanSuffix(Scanned(7, c.foundation, c.component, transport, c.priority, c.hostname, c.service, kind, "", ""), suffix)
  {
    hide ScanWord, ScanNumber, ScanRest, AfterPriority, ScanSuffix, Decimal;
    var s4 := NOTHING.(count := 4, foundation := c.foundation, component := c.component,
                       transport := transport, priority := c.priority);
    var rest := AfterPriority(c, kind, suffix);
    RestBack(s4, c, kind, suffix);
    var priority := " " + (Decimal(c.priority) + rest);
    var protocol := " " + (transport + priority);
    var component := " " + (Decimal(c.component) + protocol);
    WordBack(c.foundation, component, 32);
    NumberBack(c.component, protocol);
    WordBack(transport, priority, 32);
    NumberBack(c.priority, rest);
  }

  lemma LineBack(c: Candidate, transport: string, kind: string, suffix: string)
    requires WellFormed(c) && IsWord(transport, 32) && IsWord(kind, 32) && EndsWord(suffix)
    ensures var s := ScanSuffix(Scanned(7, c.foundation, c.component, transport, c.priority, c.hostname, c.service, kind, "", ""), suffix);
            Scan(SkipPrefix(SkipPrefix(Line(c, transport, kind, suffix), "a="), "candidate:")) == s
  {
    hide Scan, Words, ScanSuffix;
    var words := Words(c, transport, kind, suffix);
    ScanBack(c, transport, kind, suffix);
    assert Line(c, transport, kind, suffix) == "a=" + ("candidate:" + words);
    PrefixSkipped("a=", "candidate:" + words);
    PrefixSkipped("candidate:", words);
  }

  /** Printing a candidate and parsing the line gives back all it says. */
  lemma CandidateBack(c: Candidate)
    requires Public(c) && WellFormed(c)
    ensures ParseCandidate(PrintCandidate(c)) == Ok(c)
  {
    hide Scan, Line, KindName, TransportName, TransportOf, KindOf, Lower, Upper, ScanSuffix, Suffix;
    var s := Scanned(7, c.foundation, c.component, TransportName(c.transport), c.priority, c.hostname, c.service, KindName(c.kind), "", "");
    NamesBack(c);
    SuffixBack(s, c);
    LineBack(c, TransportName(c.transport), KindName(c.kind), Suffix(c));
  }

  /** The words for the three kinds of TCP candidates (section 4.5 of RFC 6544). */
  function TcpTransport(word: string): Option<Transport> {
    match word
    case "active" => Some(TcpActive)
    case "passive" => Some(TcpPassive)
    case "so" => Some(TcpSo)
    case _ => None
  }

  /** A TCP candidate of a peer, whose type and transport may be in either case: what follows tells which of
      the three it is, and anything else is ignored. */
  lemma TcpCandidateBack(c: Candidate, transport: string, kind: string, extension: string, word: string)
    requires WellFormed(c) && IsWord(transport, 32) && Upper(transport) == "TCP"
    requires IsWord(kind, 32) && c.kind in {Host, ServerReflexive, Relayed} && Lower(kind) == KindName(c.kind)
    requires IsWord(extension, 7) && IsWord(word, 7)
    ensures ParseCandidate(Line(c, transport, kind, TwoWordSuffix(extension, word))) ==
              if TcpTransport(word).Some? then Ok(c.(transport := TcpTransport(word).value)) else Ignored
  {
    hide Scan, Line, Lower, Upper, ScanSuffix, KindOf, KindName, TransportOf, TcpTransport, IsWord, SkipPrefix;
    var s := Scanned(7, c.foundation, c.component, transport, c.priority, c.hostname, c.service, kind, "", "");
    TwoWords(s, extension, word);
    LineBack(c, transport, kind, TwoWordSuffix(extension, word));
    NamesRead(c.kind, word);
  }

  function TwoWordSuffix(extension: string, word: string): string {
    " " + (extension + (" " + (word + "")))
  }

  lemma TwoWords(s: Scanned, extension: string, word: string)
    requires IsWord(extension, 7) && IsWord(word, 7)
    ensures ScanSuffix(s, TwoWordSuffix(extension, word)) == s.(count := 9, extension := extension, tcpType := word)
    ensures EndsWord(TwoWordSuffix(extension, word))
  {
    hide ScanWord;
    WordBack(extension, " " + (word + ""), 7);
    WordBack(word, "", 7);
  }

  lemma NamesRead(k: Kind, word: string)
    requires k in {Host, ServerReflexive, Relayed}
    ensures KindOf(KindName(k)) == k
    ensures TransportOf("TCP", word) == TcpTransport(word)
  {
  }

  lemma NotTcp(name: string, word: string)
    requires name != "TCP"
    ensures TransportOf(name, word) == if name == "UDP" then Some(Udp) else None
  {
  }

  /** A UDP candidate of a peer, with any extension or none; one over another transport is ignored. */
  lemma UdpCandidateBack(c: Candidate, transport: string, kind: string)
    requires WellFormed(c) && IsWord(transport, 32) && Upper(transport) != "TCP"
    requires IsWord(kind, 32) && c.kind in {Host, ServerReflexive, Relayed} && Lower(kind) == KindName(c.kind)
    ensures ParseCandidate(Line(c, transport, kind, "")) == if Upper(transport) == "UDP" then Ok(c.(transport := Udp)) else Ignored
  {
    hide Scan, Line, Lower, Upper, ScanSuffix, KindOf, KindName, TransportOf, IsWord, SkipPrefix;
    LineBack(c, transport, kind, "");
    NoSuffixBack(Scanned(7, c.foundation, c.component, transport, c.priority, c.hostname, c.service, kind, "", ""));
    NamesRead(c.kind, "");
    NotTcp(Upper(transport), "");
  }

  /** A word after the type that nothing follows makes the line malformed. */
  lemma LoneWordMalformed(c: Candidate, transport: string, kind: string, word: string)
    requires WellFormed(c) && IsWord(transport, 32) && IsWord(kind, 32) && IsWord(word, 7)
    ensures ParseCandidate(Line(c, transport, kind, " " + (word + ""))) == Malformed
  {
    hide Scan, Line, Lower, Upper, KindOf, TransportOf, IsWord, SkipPrefix;
    LineBack(c, transport, kind, " " + (word + ""));
    LoneWord(Scanned(7, c.foundation, c.component, transport, c.priority, c.hostname, c.service, kind, "", ""), word);
  }

  lemma LoneWord(s: Scanned, word: string)
    requires IsWord(word, 7)
    ensures ScanSuffix(s, " " + (word + "")) == s.(count := 8, extension := word)
  {
    WordBack(word, "", 7);
  }

  /** A candidate of a type that cannot be used, such as a peer-reflexive one, is ignored. */
  lemma UnknownTypeIgnored(c: Candidate, transport: string, kind: string)
    requires WellFormed(c) && IsWord(transport, 32) && IsWord(kind, 32) && Lower(kind) !in {"host", "srflx", "relay"}
    ensures ParseCandidate(Line(c, transport, kind, "")) == Ignored
  {
    LineBack(c, transport, kind, "");
    hide Scan, Line, Upper, Lower;
    NoSuffixBack(Scanned(7, c.foundation, c.component, transport, c.priority, c.hostname, c.service, kind, "", ""));
  }
}
