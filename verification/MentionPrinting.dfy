/** Mentions printed in front of a message, and how the parser reads them back.
    Specifies _leading_mention_agent_ids in backend/relay/api/collaboration_routes.py. */
module MentionPrinting {
  import opened Wrappers
  import opened Sequences
  import opened Mentions

  /** One printed mention: any spelling of the name, then any horizontal space. */
  datatype Mention = Mention(agent: Agent, spelling: string, gap: string)

  ghost predicate Printable(lower: Lowering, candidates: seq<Agent>, m: Mention) {
    && m.agent in candidates
    && Lower(lower, m.spelling) == Lower(lower, m.agent.Name())
    && forall i :: 0 <= i < |m.gap| ==> IsHorizontalSpace(m.gap[i])
  }

  /** A name ends at a space, at a newline, or with the text. */
  predicate Closes(after: string) { after == "" || after[0] in {' ', '\n'} }

  /** Behind every printed name the name ends. */
  predicate AllClosed(mentions: seq<Mention>, body: string) {
    mentions != [] ==>
      Closes(mentions[0].gap + Print(mentions[1..], body)) && AllClosed(mentions[1..], body)
  }

  function Print(mentions: seq<Mention>, body: string): string {
    if mentions == [] then body
    else "@" + mentions[0].spelling + mentions[0].gap + Print(mentions[1..], body)
  }

  function MentionedIds(mentions: seq<Mention>): seq<string> {
    if mentions == [] then [] else [mentions[0].agent.id] + MentionedIds(mentions[1..])
  }

  predicate ExtendsName(lower: Lowering, longer: Agent, shorter: Agent) {
    var l, s := Lower(lower, longer.Name()), Lower(lower, shorter.Name());
    s + " " <= l || s + "\n" <= l
  }

  /** No two names are alike. */
  ghost predicate DistinctNames(lower: Lowering, candidates: seq<Agent>) {
    forall i, j :: 0 <= i < j < |candidates| ==>
      Lower(lower, candidates[i].Name()) != Lower(lower, candidates[j].Name())
  }

  /** The text behind a printed name does not make it a longer one. */
  ghost predicate StopsAt(lower: Lowering, candidates: seq<Agent>, m: Mention, tail: string) {
    forall b :: b in candidates && ExtendsName(lower, b, m.agent) ==>
      !NamesTheAgent(lower, m.spelling + m.gap + tail, b.Name())
  }

  ghost predicate AllStop(lower: Lowering, candidates: seq<Agent>, mentions: seq<Mention>, body: string) {
    mentions != [] ==>
      && StopsAt(lower, candidates, mentions[0], Print(mentions[1..], body))
      && AllStop(lower, candidates, mentions[1..], body)
  }

  /** Where no name goes on past another with a space or a newline, no text does that. */
  lemma {:induction false} ApartNamesStop(lower: Lowering, candidates: seq<Agent>, mentions: seq<Mention>, body: string)
    requires forall a, b :: a in candidates && b in candidates ==> !ExtendsName(lower, a, b)
    requires forall m :: m in mentions ==> m.agent in candidates
    ensures AllStop(lower, candidates, mentions, body)
  {
    if mentions != [] {
      assert mentions[0] in mentions;
      ApartNamesStop(lower, candidates, mentions[1..], body);
    }
  }

  /** A printed name is read as another's only if one of the two goes on past the other. */
  lemma NameFitsOnly(lower: Lowering, a: Agent, spelling: string, after: string, b: Agent)
    requires lower(' ') == ' ' && lower('\n') == '\n'
    requires Lower(lower, spelling) == Lower(lower, a.Name()) && Closes(after)
    ensures Lower(lower, b.Name()) == Lower(lower, a.Name()) ==> NamesTheAgent(lower, spelling + after, b.Name())
    ensures NamesTheAgent(lower, spelling + after, b.Name()) ==>
      || Lower(lower, b.Name()) == Lower(lower, a.Name())
      || ExtendsName(lower, a, b) || ExtendsName(lower, b, a)
  {
    var text := spelling + after;
    var lowered, l, s := Lower(lower, text), Lower(lower, b.Name()), Lower(lower, a.Name());
    assert |spelling| == |Lower(lower, spelling)| == |s|;
    assert lowered[..|s|] == s by {
      assert lowered[..|s|] == Lower(lower, spelling);
    }
    if after == "" {
      assert lowered == s;
    } else {
      assert text[|s|] == after[0] && lowered[|s|] == after[0];
      assert s + [after[0]] == lowered[..|s| + 1];
    }
    if lowered == l || l + " " <= lowered || l + "\n" <= lowered {
      assert l == lowered[..|l|];
      if |l| > |s| {
        assert l[..|s| + 1] == lowered[..|s| + 1];
        assert s + [after[0]] <= l;
      } else if |l| < |s| {
        assert lowered[..|l| + 1] == s[..|l| + 1];
      }
    }
  }

  /** A printed name is read as its agent, whichever names it goes on past itself, exactly when what
      follows does not make it a longer name. */
  lemma ReadsPrintedExactly(lower: Lowering, candidates: seq<Agent>, m: Mention, tail: string)
    requires lower(' ') == ' ' && lower('\n') == '\n' && Closes(m.gap + tail)
    requires DistinctNames(lower, candidates) && Printable(lower, candidates, m)
    ensures Read(lower, candidates, m.spelling + m.gap + tail) == Named(m.agent) <==>
      StopsAt(lower, candidates, m, tail)
  {
    var rest := m.spelling + m.gap + tail;
    var i: nat :| i < |candidates| && candidates[i] == m.agent;
    PrintedFits(lower, candidates, m, tail, i);
    LongestNameWins(lower, candidates, rest);
    if StopsAt(lower, candidates, m, tail) {
      assert Wins(lower, candidates, rest, i);
    } else {
      var b :| b in candidates && ExtendsName(lower, b, m.agent) && NamesTheAgent(lower, rest, b.Name());
      var j: nat :| j < |candidates| && candidates[j] == b;
      assert FitsAt(lower, candidates, rest, j);
      ExtendedIsLonger(lower, b, m.agent);
    }
  }

  lemma ExtendedIsLonger(lower: Lowering, longer: Agent, shorter: Agent)
    requires ExtendsName(lower, longer, shorter)
    ensures |shorter.Name()| < |longer.Name()|
  {
    assert |Lower(lower, longer.Name())| == |longer.Name()| && |Lower(lower, shorter.Name())| == |shorter.Name()|;
  }

  /** The text of a printed name fits its own agent, and besides only shorter names that it goes on
      past and longer ones that go on past it. */
  lemma PrintedFits(lower: Lowering, candidates: seq<Agent>, m: Mention, tail: string, i: nat)
    requires lower(' ') == ' ' && lower('\n') == '\n' && Closes(m.gap + tail)
    requires DistinctNames(lower, candidates) && Printable(lower, candidates, m)
    requires i < |candidates| && candidates[i] == m.agent
    ensures FitsAt(lower, candidates, m.spelling + m.gap + tail, i)
    ensures forall j: nat :: j != i && FitsAt(lower, candidates, m.spelling + m.gap + tail, j) ==>
      |candidates[j].Name()| < |m.agent.Name()| || ExtendsName(lower, candidates[j], m.agent)
  {
    assert m.spelling + m.gap + tail == m.spelling + (m.gap + tail);
    NameFitsOnly(lower, m.agent, m.spelling, m.gap + tail, m.agent);
    forall j: nat | j != i && FitsAt(lower, candidates, m.spelling + m.gap + tail, j)
      ensures |candidates[j].Name()| < |m.agent.Name()| || ExtendsName(lower, candidates[j], m.agent)
    {
      NameFitsOnly(lower, m.agent, m.spelling, m.gap + tail, candidates[j]);
      if ExtendsName(lower, m.agent, candidates[j]) {
        ExtendedIsLonger(lower, m.agent, candidates[j]);
      }
    }
  }

  /** The reader reads every printed mention, with what follows it, as its agent. */
  ghost predicate ReadsAll(read: Reader, mentions: seq<Mention>, body: string) {
    mentions != [] ==>
      && WellFormed(mentions[0])
      && read(mentions[0].spelling + mentions[0].gap + Print(mentions[1..], body)) == Named(mentions[0].agent)
      && ReadsAll(read, mentions[1..], body)
  }

  ghost predicate WellFormed(m: Mention) {
    && |m.spelling| == |m.agent.Name()|
    && forall i :: 0 <= i < |m.gap| ==> IsHorizontalSpace(m.gap[i])
  }

  /** A printed mention within a text: where it is read, and where the scan goes on. */
  lemma MentionAt(text: string, c: nat, m: Mention, tail: string) returns (next: nat)
    requires WellFormed(m) && c <= |text| && text[c..] == "@" + m.spelling + m.gap + tail
    ensures c < |text| && text[c] == '@' && text[c + 1..] == m.spelling + m.gap + tail
    ensures next <= |text| && text[next..] == tail
    ensures c + 1 + |m.agent.Name()| <= |text| && Beyond(text, c, m.agent) == next + LeadingSpace(tail)
  {
    MentionParts(text, c, m.spelling, m.gap, tail);
    next := c + 1 + |m.spelling| + |m.gap|;
    LeadingSpaceOfGap(m.gap, tail);
  }

  lemma MentionParts(text: string, c: nat, name: string, gap: string, tail: string)
    requires c <= |text| && text[c..] == "@" + name + gap + tail
    ensures c + 1 + |name| + |gap| <= |text| && text[c] == '@' && text[c + 1..] == name + gap + tail
    ensures text[c + 1 + |name|..] == gap + tail && text[c + 1 + |name| + |gap|..] == tail
  {
    Regroup("@", name, gap, tail);
    GoesOn(text, c, "@", name + gap + tail);
    GoesOn(text, c + 1, name, gap + tail);
    GoesOn(text, c + 1 + |name|, gap, tail);
  }

  lemma Regroup(a: string, b: string, c: string, d: string)
    ensures a + b + c + d == a + (b + c + d) && b + c + d == b + (c + d)
  {
  }

  lemma GoesOn(text: string, c: nat, front: string, rest: string)
    requires c <= |text| && text[c..] == front + rest
    ensures c + |front| <= |text| && text[c..c + |front|] == front && text[c + |front|..] == rest
  {
    assert text[c..][..|front|] == front && text[c..][|front|..] == rest;
  }

  lemma ScanNames(read: Reader, text: string, c: nat, agent: Agent, next: nat, addressed: seq<string>)
    requires Fits(read) && c < |text| && text[c] == '@' && read(text[c + 1..]) == Named(agent)
    requires c + 1 + |agent.Name()| <= |text| && Beyond(text, c, agent) == next
    ensures Scan(read, text, c, addressed) == Scan(read, text, next, addressed + [agent.id])
  {
  }

  lemma ScanStops(read: Reader, text: string, c: nat, addressed: seq<string>)
    requires Fits(read) && (c == |text| || (c < |text| && text[c] != '@'))
    ensures Scan(read, text, c, addressed) == Ok(addressed)
  {
  }

  /** If the scan behind a mention reads the rest, the scan at the mention reads it too. */
  lemma ScanOneMore(
    read: Reader, text: string, c: nat, agent: Agent, next: nat, addressed: seq<string>, ids: seq<string>
  )
    requires Fits(read) && c < |text| && text[c] == '@' && read(text[c + 1..]) == Named(agent)
    requires next <= |text| && c + 1 + |agent.Name()| <= |text|
    requires Beyond(text, c, agent) == next + LeadingSpace(text[next..])
    requires Scan(read, text, next + LeadingSpace(text[next..]), addressed + [agent.id])
      == Ok(addressed + [agent.id] + ids)
    ensures Scan(read, text, c + LeadingSpace(text[c..]), addressed) == Ok(addressed + ([agent.id] + ids))
  {
    ScanNames(read, text, c, agent, Beyond(text, c, agent), addressed);
    AtSignIsNoSpace(text, c);
    assert (addressed + [agent.id]) + ids == addressed + ([agent.id] + ids);
  }

  lemma ScanStopsAtBody(read: Reader, text: string, c: nat, body: string, addressed: seq<string>)
    requires Fits(read) && (LeadingSpace(body) == |body| || body[LeadingSpace(body)] != '@')
    requires c <= |text| && text[c..] == body
    ensures Scan(read, text, c + LeadingSpace(text[c..]), addressed) == Ok(addressed)
  {
    var end := c + LeadingSpace(body);
    assert end == |text| || text[end] == body[LeadingSpace(body)];
    ScanStops(read, text, end, addressed);
  }

  /** The scan of a printed text from any of its mentions on reads the rest. */
  lemma {:induction false} ScanInvertsPrint(
    read: Reader, text: string, c: nat, mentions: seq<Mention>, body: string, addressed: seq<string>
  )
    requires Fits(read) && ReadsAll(read, mentions, body)
    requires LeadingSpace(body) == |body| || body[LeadingSpace(body)] != '@'
    requires c <= |text| && text[c..] == Print(mentions, body)
    ensures Scan(read, text, c + LeadingSpace(text[c..]), addressed) == Ok(addressed + MentionedIds(mentions))
    decreases |mentions|
  {
    if mentions == [] {
      ScanStopsAtBody(read, text, c, body, addressed);
      assert addressed + [] == addressed;
    } else {
      var m, rest := mentions[0], mentions[1..];
      var next := MentionAt(text, c, m, Print(rest, body));
      ScanInvertsPrint(read, text, next, rest, body, addressed + [m.agent.id]);
      ScanOneMore(read, text, c, m.agent, next, addressed, MentionedIds(rest));
    }
  }

  lemma AtSignIsNoSpace(text: string, c: nat)
    requires c < |text| && text[c] == '@'
    ensures LeadingSpace(text[c..]) == 0
  {
  }

  /** Parsing inverts printing: the ids of the mentioned agents, each once, in the order of first
      mention. Names may go on past others, as long as no text makes a printed one longer. */
  lemma MentionsRoundTrip(lower: Lowering, agents: seq<Agent>, mentions: seq<Mention>, body: string)
    requires lower(' ') == ' ' && lower('\n') == '\n' && DistinctNames(lower, Candidates(agents))
    requires (forall m :: m in mentions ==> Printable(lower, Candidates(agents), m)) && AllClosed(mentions, body)
    requires AllStop(lower, Candidates(agents), mentions, body)
    requires LeadingSpace(body) == |body| || body[LeadingSpace(body)] != '@'
    ensures LeadingMentions(lower, Print(mentions, body), agents) == Ok(Dedup(MentionedIds(mentions)))
  {
    var read := ReaderOf(lower, Candidates(agents));
    ReaderFits(lower, Candidates(agents));
    ReaderReadsAll(lower, Candidates(agents), mentions, body);
    ScanFromTheStart(read, mentions, body);
  }

  lemma ScanFromTheStart(read: Reader, mentions: seq<Mention>, body: string)
    requires Fits(read) && ReadsAll(read, mentions, body)
    requires LeadingSpace(body) == |body| || body[LeadingSpace(body)] != '@'
    ensures Scan(read, Print(mentions, body), LeadingSpace(Print(mentions, body)), []) == Ok(MentionedIds(mentions))
  {
    var text := Print(mentions, body);
    assert text[0..] == text;
    ScanInvertsPrint(read, text, 0, mentions, body, []);
    assert [] + MentionedIds(mentions) == MentionedIds(mentions);
  }

  lemma {:induction false} ReaderReadsAll(lower: Lowering, candidates: seq<Agent>, mentions: seq<Mention>, body: string)
    requires lower(' ') == ' ' && lower('\n') == '\n' && DistinctNames(lower, candidates)
    requires (forall m :: m in mentions ==> Printable(lower, candidates, m)) && AllClosed(mentions, body)
    requires AllStop(lower, candidates, mentions, body)
    ensures ReadsAll(ReaderOf(lower, candidates), mentions, body)
  {
    if mentions != [] {
      PrintableIsWellFormed(lower, candidates, mentions[0]);
      ReadsPrintedExactly(lower, candidates, mentions[0], Print(mentions[1..], body));
      ReaderReadsAll(lower, candidates, mentions[1..], body);
    }
  }

  lemma PrintableIsWellFormed(lower: Lowering, candidates: seq<Agent>, m: Mention)
    requires Printable(lower, candidates, m)
    ensures WellFormed(m)
  {
    assert |m.spelling| == |Lower(lower, m.spelling)| == |Lower(lower, m.agent.Name())|;
  }
}
