/** The leading "@Display Name" run of a message.
    Models _leading_mention_agent_ids in backend/relay/api/collaboration_routes.py, over a
    lowercasing that works character by character. */
module Mentions {
  import opened Wrappers
  import opened Sequences
  import Text

  datatype Agent = Agent(id: string, displayName: Option<string>, deleted: bool, enabled: bool) {
    predicate Nameable() { !deleted && enabled && displayName.GetOr("") != "" }
    function Name(): string { displayName.GetOr("") }
  }

  datatype Refusal = AddressRequired | AddressAmbiguous

  type Lowering = char -> char

  function Lower(lower: Lowering, s: string): string {
    seq(|s|, i requires 0 <= i < |s| => lower(s[i]))
  }

  /** Spaces that may stand before a mention; a newline may not. */
  predicate IsHorizontalSpace(c: char) {
    var n := c as int;
    && c != '\n'
    && (n == 0x09 || 0x0B <= n <= 0x0D || n == 0x20 || n == 0xA0 || n == 0x1680 || 0x2000 <= n <= 0x200A
        || n == 0x2028 || n == 0x2029 || n == 0x202F || n == 0x205F || n == 0x3000 || n == 0xFEFF)
  }

  /** These are the spaces that strip() removes, but for the newline, five controls, and one more. */
  lemma HorizontalSpaceIs(c: char)
    ensures IsHorizontalSpace(c) <==>
      || (Text.IsSpace(c) && c != '\n' && !(0x1C <= c as int <= 0x1F) && c as int != 0x85)
      || c as int == 0xFEFF
  {
  }

  function LeadingSpace(s: string): (n: nat)
    ensures n <= |s|
  {
    if s != "" && IsHorizontalSpace(s[0]) then 1 + LeadingSpace(s[1..]) else 0
  }

  lemma {:induction false} LeadingSpaceIs(s: string, n: nat)
    requires n <= |s| && (forall i :: 0 <= i < n ==> IsHorizontalSpace(s[i]))
    requires n < |s| ==> !IsHorizontalSpace(s[n])
    ensures LeadingSpace(s) == n
  {
    if n > 0 {
      LeadingSpaceIs(s[1..], n - 1);
    }
  }

  lemma {:induction false} LeadingSpaceOfGap(gap: string, tail: string)
    requires forall i :: 0 <= i < |gap| ==> IsHorizontalSpace(gap[i])
    ensures LeadingSpace(gap + tail) == |gap| + LeadingSpace(tail)
  {
    if gap == "" {
      assert gap + tail == tail;
    } else {
      assert (gap + tail)[1..] == gap[1..] + tail;
      LeadingSpaceOfGap(gap[1..], tail);
    }
  }

  predicate NamesTheAgent(lower: Lowering, rest: string, displayName: string) {
    var lowered, name := Lower(lower, rest), Lower(lower, displayName);
    lowered == name || name + " " <= lowered || name + "\n" <= lowered
  }

  function Candidates(agents: seq<Agent>): seq<Agent> {
    if agents == [] then []
    else (if agents[0].Nameable() then [agents[0]] else []) + Candidates(agents[1..])
  }

  /** The candidates that the text names. */
  function Matches(lower: Lowering, candidates: seq<Agent>, rest: string): seq<Agent> {
    if candidates == [] then []
    else
      (if NamesTheAgent(lower, rest, candidates[0].Name()) then [candidates[0]] else [])
      + Matches(lower, candidates[1..], rest)
  }

  function LongestName(agents: seq<Agent>): nat {
    if agents == [] then 0
    else
      var rest := LongestName(agents[1..]);
      if |agents[0].Name()| >= rest then |agents[0].Name()| else rest
  }

  function OfLength(agents: seq<Agent>, n: nat): seq<Agent> {
    if agents == [] then []
    else (if |agents[0].Name()| == n then [agents[0]] else []) + OfLength(agents[1..], n)
  }

  datatype Reading = Named(agent: Agent) | Prose | Refused(why: Refusal)

  /** What an "@" followed by this text says. */
  function Read(lower: Lowering, candidates: seq<Agent>, rest: string): Reading {
    var matches := Matches(lower, candidates, rest);
    if matches == [] then
      if rest == "" || Text.IsSpace(rest[0]) then Prose else Refused(AddressRequired)
    else
      var best := OfLength(matches, LongestName(matches));
      if |best| != 1 then Refused(AddressAmbiguous) else Named(best[0])
  }

  lemma {:induction false} MatchesMatch(lower: Lowering, candidates: seq<Agent>, rest: string, a: Agent)
    ensures a in Matches(lower, candidates, rest) <==>
      a in candidates && NamesTheAgent(lower, rest, a.Name())
  {
    if candidates != [] {
      MatchesMatch(lower, candidates[1..], rest, a);
    }
  }

  lemma {:induction false} OfLengthKeeps(agents: seq<Agent>, n: nat, a: Agent)
    ensures a in OfLength(agents, n) <==> a in agents && |a.Name()| == n
  {
    if agents != [] {
      OfLengthKeeps(agents[1..], n, a);
    }
  }

  lemma ReadNames(lower: Lowering, candidates: seq<Agent>, rest: string)
    requires Read(lower, candidates, rest).Named?
    ensures var a := Read(lower, candidates, rest).agent;
      a in candidates && NamesTheAgent(lower, rest, a.Name()) && |a.Name()| <= |rest|
  {
    var a := Read(lower, candidates, rest).agent;
    var matches := Matches(lower, candidates, rest);
    OfLengthKeeps(matches, LongestName(matches), a);
    MatchesMatch(lower, candidates, rest, a);
    assert |Lower(lower, rest)| == |rest| && |Lower(lower, a.Name())| == |a.Name()|;
  }

  // ----- the reading, by the candidates alone

  /** A text names an agent when it starts with the name in any case, and the name ends there. */
  lemma NamesExactly(lower: Lowering, rest: string, name: string)
    ensures NamesTheAgent(lower, rest, name) <==>
      && |name| <= |rest| && (forall i :: 0 <= i < |name| ==> lower(rest[i]) == lower(name[i]))
      && (|name| < |rest| ==> lower(rest[|name|]) in {' ', '\n'})
  {
    var lowered, l := Lower(lower, rest), Lower(lower, name);
    StartsAndEnds(lowered, l, ' ');
    StartsAndEnds(lowered, l, '\n');
    if |name| <= |rest| {
      SameInAnyCase(lower, rest, name);
    }
    assert |name| == |rest| ==> lowered[..|l|] == lowered;
    assert " " == [' '] && "\n" == ['\n'];
  }

  lemma SameInAnyCase(lower: Lowering, rest: string, name: string)
    requires |name| <= |rest|
    ensures Lower(lower, rest)[..|name|] == Lower(lower, name) <==>
      forall i :: 0 <= i < |name| ==> lower(rest[i]) == lower(name[i])
  {
    var front, l := Lower(lower, rest)[..|name|], Lower(lower, name);
    assert |front| == |l| && forall i :: 0 <= i < |name| ==> front[i] == lower(rest[i]) && l[i] == lower(name[i]);
    if front == l {
      forall i | 0 <= i < |name|
        ensures lower(rest[i]) == lower(name[i])
      {
        assert front[i] == l[i];
      }
    }
  }

  lemma StartsAndEnds(s: string, name: string, end: char)
    ensures name + [end] <= s <==> |name| < |s| && s[..|name|] == name && s[|name|] == end
  {
    if |name| < |s| {
      assert s[..|name| + 1] == s[..|name|] + [s[|name|]];
    }
  }

  /** The agents that can be mentioned: not deleted, enabled, and with a name. */
  lemma {:induction false} CandidatesAre(agents: seq<Agent>, a: Agent)
    ensures multiset(Candidates(agents))[a] ==
      if !a.deleted && a.enabled && a.displayName.GetOr("") != "" then multiset(agents)[a] else 0
  {
    if agents != [] {
      CandidatesAre(agents[1..], a);
      assert agents == [agents[0]] + agents[1..];
    }
  }

  /** The text names the candidate at this position. */
  ghost predicate FitsAt(lower: Lowering, candidates: seq<Agent>, rest: string, i: nat) {
    i < |candidates| && NamesTheAgent(lower, rest, candidates[i].Name())
  }

  /** It is the one longest of those that the text names. */
  ghost predicate Wins(lower: Lowering, candidates: seq<Agent>, rest: string, i: nat) {
    && FitsAt(lower, candidates, rest, i)
    && forall j: nat :: j != i && FitsAt(lower, candidates, rest, j) ==> |candidates[j].Name()| < |candidates[i].Name()|
  }

  /** Two of them are as long, and none is longer. */
  ghost predicate Ties(lower: Lowering, candidates: seq<Agent>, rest: string, i: nat, j: nat) {
    && i != j && FitsAt(lower, candidates, rest, i) && FitsAt(lower, candidates, rest, j)
    && |candidates[i].Name()| == |candidates[j].Name()|
    && forall k: nat :: FitsAt(lower, candidates, rest, k) ==> |candidates[k].Name()| <= |candidates[i].Name()|
  }

  lemma {:induction false} LongestIs(agents: seq<Agent>)
    ensures forall a :: a in agents ==> |a.Name()| <= LongestName(agents)
    ensures agents != [] ==> exists a :: a in agents && |a.Name()| == LongestName(agents)
  {
    if agents != [] {
      LongestIs(agents[1..]);
      assert agents[0] in agents && forall a :: a in agents[1..] ==> a in agents;
    }
  }

  /** The candidates that a text names, of one length. */
  function Best(lower: Lowering, candidates: seq<Agent>, rest: string, n: nat): seq<Agent> {
    OfLength(Matches(lower, candidates, rest), n)
  }

  lemma BestOfFirst(lower: Lowering, candidates: seq<Agent>, rest: string, n: nat)
    requires candidates != []
    ensures Best(lower, candidates, rest, n) ==
      (if NamesTheAgent(lower, rest, candidates[0].Name()) && |candidates[0].Name()| == n then [candidates[0]] else [])
      + Best(lower, candidates[1..], rest, n)
  {
    var others := Matches(lower, candidates[1..], rest);
    assert ([candidates[0]] + others)[1..] == others && [] + others == others;
  }

  lemma {:induction false} BestNone(lower: Lowering, candidates: seq<Agent>, rest: string, n: nat)
    requires forall i: nat :: FitsAt(lower, candidates, rest, i) ==> |candidates[i].Name()| != n
    ensures Best(lower, candidates, rest, n) == []
  {
    if candidates != [] {
      BestOfFirst(lower, candidates, rest, n);
      assert FitsAt(lower, candidates, rest, 0) <==> NamesTheAgent(lower, rest, candidates[0].Name());
      assert forall i: nat :: FitsAt(lower, candidates[1..], rest, i) ==> FitsAt(lower, candidates, rest, i + 1);
      BestNone(lower, candidates[1..], rest, n);
    }
  }

  lemma {:induction false} BestOne(lower: Lowering, candidates: seq<Agent>, rest: string, i: nat)
    requires FitsAt(lower, candidates, rest, i)
    requires forall j: nat :: j != i && FitsAt(lower, candidates, rest, j) ==>
      |candidates[j].Name()| != |candidates[i].Name()|
    ensures Best(lower, candidates, rest, |candidates[i].Name()|) == [candidates[i]]
  {
    var n := |candidates[i].Name()|;
    BestOfFirst(lower, candidates, rest, n);
    assert FitsAt(lower, candidates, rest, 0) <==> NamesTheAgent(lower, rest, candidates[0].Name());
    assert forall j: nat :: FitsAt(lower, candidates[1..], rest, j) ==> FitsAt(lower, candidates, rest, j + 1);
    if i == 0 {
      BestNone(lower, candidates[1..], rest, n);
    } else {
      BestOne(lower, candidates[1..], rest, i - 1);
    }
  }

  lemma {:induction false} BestSome(lower: Lowering, candidates: seq<Agent>, rest: string, i: nat)
    requires FitsAt(lower, candidates, rest, i)
    ensures Best(lower, candidates, rest, |candidates[i].Name()|) != []
  {
    BestOfFirst(lower, candidates, rest, |candidates[i].Name()|);
    if i > 0 {
      BestSome(lower, candidates[1..], rest, i - 1);
    }
  }

  lemma {:induction false} BestTwo(lower: Lowering, candidates: seq<Agent>, rest: string, i: nat, j: nat)
    requires i < j && FitsAt(lower, candidates, rest, i) && FitsAt(lower, candidates, rest, j)
    requires |candidates[i].Name()| == |candidates[j].Name()|
    ensures |Best(lower, candidates, rest, |candidates[i].Name()|)| >= 2
  {
    BestOfFirst(lower, candidates, rest, |candidates[i].Name()|);
    if i == 0 {
      BestSome(lower, candidates[1..], rest, j - 1);
    } else {
      BestTwo(lower, candidates[1..], rest, i - 1, j - 1);
    }
  }

  lemma LongestFits(lower: Lowering, candidates: seq<Agent>, rest: string) returns (i: nat)
    requires Matches(lower, candidates, rest) != []
    ensures FitsAt(lower, candidates, rest, i)
    ensures |candidates[i].Name()| == LongestName(Matches(lower, candidates, rest))
    ensures forall j: nat :: FitsAt(lower, candidates, rest, j) ==> |candidates[j].Name()| <= |candidates[i].Name()|
  {
    var matches := Matches(lower, candidates, rest);
    LongestIs(matches);
    var a :| a in matches && |a.Name()| == LongestName(matches);
    MatchesMatch(lower, candidates, rest, a);
    i :| 0 <= i < |candidates| && candidates[i] == a;
    forall j: nat | FitsAt(lower, candidates, rest, j)
      ensures |candidates[j].Name()| <= |candidates[i].Name()|
    {
      MatchesMatch(lower, candidates, rest, candidates[j]);
    }
  }

  lemma MatchesNothing(lower: Lowering, candidates: seq<Agent>, rest: string)
    ensures Matches(lower, candidates, rest) == [] <==> forall i: nat :: !FitsAt(lower, candidates, rest, i)
  {
    var matches := Matches(lower, candidates, rest);
    if matches != [] {
      var i := LongestFits(lower, candidates, rest);
    }
    forall i: nat | FitsAt(lower, candidates, rest, i)
      ensures matches != []
    {
      MatchesMatch(lower, candidates, rest, candidates[i]);
    }
  }

  /** The longest name wins: a text is read as an agent exactly when that is the one longest of the
      candidates it names, as ambiguous exactly when two of the longest tie, and as prose or as a
      missing address exactly when it names nobody. */
  lemma LongestNameWins(lower: Lowering, candidates: seq<Agent>, rest: string)
    ensures forall i: nat :: Wins(lower, candidates, rest, i) ==> Read(lower, candidates, rest) == Named(candidates[i])
    ensures Read(lower, candidates, rest).Named? <==> exists i: nat :: Wins(lower, candidates, rest, i)
    ensures Read(lower, candidates, rest) == Refused(AddressAmbiguous) <==>
      exists i: nat, j: nat :: Ties(lower, candidates, rest, i, j)
    ensures Read(lower, candidates, rest) == Refused(AddressRequired) <==>
      (forall i: nat :: !FitsAt(lower, candidates, rest, i)) && rest != "" && !Text.IsSpace(rest[0])
    ensures Read(lower, candidates, rest) == Prose <==>
      (forall i: nat :: !FitsAt(lower, candidates, rest, i)) && (rest == "" || Text.IsSpace(rest[0]))
  {
    MatchesNothing(lower, candidates, rest);
    if Matches(lower, candidates, rest) != [] {
      var i := LongestFits(lower, candidates, rest);
      if j: nat :| j != i && FitsAt(lower, candidates, rest, j) && |candidates[j].Name()| == |candidates[i].Name()| {
        assert Ties(lower, candidates, rest, i, j);
        BestTwo(lower, candidates, rest, if i < j then i else j, if i < j then j else i);
      } else {
        assert Wins(lower, candidates, rest, i);
        BestOne(lower, candidates, rest, i);
      }
    }
  }

  /** How a text behind an "@" is read; a name read is never longer than the text. */
  type Reader = string -> Reading

  ghost predicate Fits(read: Reader) {
    forall rest :: read(rest).Named? ==> |read(rest).agent.Name()| <= |rest|
  }

  function ReaderOf(lower: Lowering, candidates: seq<Agent>): Reader {
    rest => Read(lower, candidates, rest)
  }

  lemma ReaderFits(lower: Lowering, candidates: seq<Agent>)
    ensures Fits(ReaderOf(lower, candidates))
  {
    forall rest | ReaderOf(lower, candidates)(rest).Named?
      ensures |ReaderOf(lower, candidates)(rest).agent.Name()| <= |rest|
    {
      ReadNames(lower, candidates, rest);
    }
  }

  /** Where the scan goes on after a name: past it and past the space behind it. */
  function Beyond(text: string, cursor: nat, agent: Agent): (next: nat)
    requires cursor + 1 + |agent.Name()| <= |text|
    ensures cursor < next <= |text|
  {
    var past := cursor + 1 + |agent.Name()|;
    past + LeadingSpace(text[past..])
  }

  /** The ids addressed before the cursor, and those addressed from it on. */
  ghost function Scan(read: Reader, text: string, cursor: nat, addressed: seq<string>): Result<seq<string>, Refusal>
    requires cursor <= |text| && Fits(read)
    decreases |text| - cursor
  {
    if cursor == |text| || text[cursor] != '@' then Ok(addressed)
    else
      match read(text[cursor + 1..])
      case Prose => Ok(addressed)
      case Refused(why) => Err(why)
      case Named(agent) => Scan(read, text, Beyond(text, cursor, agent), addressed + [agent.id])
  }

  ghost function LeadingMentions(lower: Lowering, text: string, agents: seq<Agent>): Result<seq<string>, Refusal> {
    ReaderFits(lower, Candidates(agents));
    match Scan(ReaderOf(lower, Candidates(agents)), text, LeadingSpace(text), [])
    case Err(why) => Err(why)
    case Ok(ids) => Ok(Dedup(ids))
  }

  /** The counter loop that skips horizontal space. */
  method SkipSpace(text: string) returns (cursor: nat)
    ensures cursor == LeadingSpace(text)
  {
    cursor := 0;
    while cursor < |text| && IsHorizontalSpace(text[cursor])
      invariant cursor <= |text| && forall i :: 0 <= i < cursor ==> IsHorizontalSpace(text[i])
    {
      cursor := cursor + 1;
    }
    LeadingSpaceIs(text, cursor);
  }

  /** Past a mention and the space behind it. */
  method SkipMention(text: string, start: nat, agent: Agent) returns (cursor: nat)
    requires start + 1 + |agent.Name()| <= |text|
    ensures cursor == Beyond(text, start, agent)
  {
    cursor := start + 1 + |agent.Name()|;
    var gap := SkipSpace(text[cursor..]);
    cursor := cursor + gap;
  }

  /** The cursor loop. It reads each mention once and never moves back. */
  method ScanMentions(read: Reader, text: string) returns (result: Result<seq<string>, Refusal>)
    requires Fits(read)
    ensures result == Scan(read, text, LeadingSpace(text), [])
  {
    var cursor := SkipSpace(text);
    var addressed: seq<string> := [];
    ghost var whole := Scan(read, text, cursor, []);
    while cursor < |text| && text[cursor] == '@'
      invariant cursor <= |text|
      invariant whole == Scan(read, text, cursor, addressed)
      decreases |text| - cursor
    {
      match read(text[cursor + 1..]) {
        case Prose =>
          break;
        case Refused(why) =>
          return Err(why);
        case Named(selected) =>
          assert whole == Scan(read, text, Beyond(text, cursor, selected), addressed + [selected.id]);
          addressed := addressed + [selected.id];
          cursor := SkipMention(text, cursor, selected);
      }
    }
    result := Ok(addressed);
  }

  method LeadingMentionAgentIds(lower: Lowering, text: string, agents: seq<Agent>)
    returns (result: Result<seq<string>, Refusal>)
    ensures result == LeadingMentions(lower, text, agents)
  {
    ReaderFits(lower, Candidates(agents));
    var scanned := ScanMentions(ReaderOf(lower, Candidates(agents)), text);
    result := match scanned case Err(why) => Err(why) case Ok(ids) => Ok(Dedup(ids));
  }

  // ----- what the scanner promises

  /** A message that opens with an at sign and a word is never read as a message to the room. */
  lemma NeverFailsOpen(lower: Lowering, text: string, agents: seq<Agent>)
    requires
      var start := LeadingSpace(text);
      start + 1 < |text| && text[start] == '@' && !Text.IsSpace(text[start + 1])
    ensures LeadingMentions(lower, text, agents).Ok? ==> LeadingMentions(lower, text, agents).value != []
  {
    var read := ReaderOf(lower, Candidates(agents));
    ReaderFits(lower, Candidates(agents));
    var start := LeadingSpace(text);
    WordIsNotProse(lower, Candidates(agents), text[start + 1..]);
    FirstWordIsNotProse(read, text, start);
    DedupOfScan(read, text, start);
  }

  lemma DedupOfScan(read: Reader, text: string, start: nat)
    requires start <= |text| && Fits(read)
    requires Scan(read, text, start, []).Ok? ==> Scan(read, text, start, []).value != []
    ensures Scan(read, text, start, []).Ok? ==> Dedup(Scan(read, text, start, []).value) != []
  {
    if Scan(read, text, start, []).Ok? {
      DedupKeepsSome(Scan(read, text, start, []).value);
    }
  }

  lemma WordIsNotProse(lower: Lowering, candidates: seq<Agent>, rest: string)
    requires rest != "" && !Text.IsSpace(rest[0])
    ensures !Read(lower, candidates, rest).Prose?
  {
  }

  lemma DedupKeepsSome(ids: seq<string>)
    requires ids != []
    ensures Dedup(ids) != []
  {
    DedupKeepsElements(ids);
    assert ids[0] in ids;
  }

  lemma FirstWordIsNotProse(read: Reader, text: string, start: nat)
    requires start < |text| && text[start] == '@' && Fits(read) && !read(text[start + 1..]).Prose?
    ensures Scan(read, text, start, []).Ok? ==> Scan(read, text, start, []).value != []
  {
    if read(text[start + 1..]).Named? {
      var agent := read(text[start + 1..]).agent;
      ScanExtends(read, text, Beyond(text, start, agent), [] + [agent.id]);
    }
  }

  lemma {:induction false} ScanExtends(read: Reader, text: string, cursor: nat, addressed: seq<string>)
    requires cursor <= |text| && Fits(read)
    ensures var scanned := Scan(read, text, cursor, addressed);
      scanned.Ok? ==> addressed <= scanned.value
    decreases |text| - cursor
  {
    if cursor < |text| && text[cursor] == '@' && read(text[cursor + 1..]).Named? {
      var agent := read(text[cursor + 1..]).agent;
      ScanExtends(read, text, Beyond(text, cursor, agent), addressed + [agent.id]);
    }
  }
}
