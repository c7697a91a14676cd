/** The agent on one host: reading the table `virsh list --all` prints, and waiting for a domain to
    shut down. */
module Agent {
  import opened Wrappers
  import opened Text

  // ----- Words

  /** White space as Unicode has it. */
  predicate IsSpace(c: char) {
    || '\t' <= c <= '\r' || c == ' ' || c == '\U{0085}' || c == '\U{00A0}' || c == '\U{1680}'
    || '\U{2000}' <= c <= '\U{200A}' || c == '\U{2028}' || c == '\U{2029}' || c == '\U{202F}'
    || c == '\U{205F}' || c == '\U{3000}'
  }

  predicate IsBlank(s: string) { forall c | c in s :: IsSpace(c) }

  predicate IsWord(s: string) { s != "" && forall c | c in s :: !IsSpace(c) }

  /** The length of the longest prefix of white space, and of anything else. */
  function Spaces(s: string): (n: nat)
    ensures n <= |s| && (n < |s| ==> !IsSpace(s[n]))
  {
    if s == "" || !IsSpace(s[0]) then 0 else 1 + Spaces(s[1..])
  }

  function Letters(s: string): (n: nat)
    ensures n <= |s| && (s != "" && !IsSpace(s[0]) ==> n > 0)
  {
    if s == "" || IsSpace(s[0]) then 0 else 1 + Letters(s[1..])
  }

  /** The words of a line, whatever the white space around them. */
  function Fields(s: string): seq<string>
    decreases |s|
  {
    var t := s[Spaces(s)..];
    if t == "" then [] else [t[..Letters(t)]] + Fields(t[Letters(t)..])
  }

  lemma {:induction false} SpacesOf(blank: string, rest: string)
    requires IsBlank(blank) && (rest == "" || !IsSpace(rest[0]))
    ensures Spaces(blank + rest) == |blank|
  {
    if blank == "" {
      assert blank + rest == rest;
    } else {
      assert (blank + rest)[1..] == blank[1..] + rest;
      SpacesOf(blank[1..], rest);
    }
  }

  lemma {:induction false} LettersOf(word: string, rest: string)
    requires (forall c | c in word :: !IsSpace(c)) && (rest == "" || IsSpace(rest[0]))
    ensures Letters(word + rest) == |word|
  {
    if word == "" {
      assert word + rest == rest;
    } else {
      assert (word + rest)[1..] == word[1..] + rest;
      LettersOf(word[1..], rest);
    }
  }

  lemma FieldsOfBlank(blank: string)
    requires IsBlank(blank)
    ensures Fields(blank) == []
  {
    SpacesOf(blank, "");
    assert blank + "" == blank;
  }

  lemma FieldsStep(blank: string, word: string, rest: string)
    requires IsBlank(blank) && IsWord(word) && (rest == "" || IsSpace(rest[0]))
    ensures Fields(blank + (word + rest)) == [word] + Fields(rest)
  {
    assert (word + rest)[0] == word[0];
    SpacesOf(blank, word + rest);
    assert (blank + (word + rest))[|blank|..] == word + rest;
    LettersOf(word, rest);
    assert (word + rest)[..|word|] == word && (word + rest)[|word|..] == rest;
  }

  // ----- The table

  /** What one line adds to the map of statuses. */
  function ReadLine(line: string, statuses: map<string, string>): map<string, string> {
    var fields := Fields(line);
    if |fields| == 3 && fields[0] != "Id" then statuses[fields[1] := fields[2]]
    else if |fields| > 3 && fields[0] != "Id" then statuses[fields[1] := fields[2] + " " + fields[3]]
    else statuses
  }

  function ReadLines(lines: seq<string>): map<string, string> {
    if lines == [] then map[] else ReadLine(lines[|lines| - 1], ReadLines(lines[..|lines| - 1]))
  }

  method ListInstancesStatus(output: Option<string>) returns (statuses: Option<map<string, string>>)
    ensures statuses == if output.None? then None else Some(ReadLines(Split(output.value, '\n')))
  {
    if output.None? { return None; }
    var lines := Split(output.value, '\n');
    var vmStatusMap: map<string, string> := map[];
    for k := 0 to |lines|
      invariant vmStatusMap == ReadLines(lines[..k])
    {
      assert lines[..k + 1][..k] == lines[..k];
      var fields := Fields(lines[k]);
      if |fields| == 3 && fields[0] != "Id" {
        vmStatusMap := vmStatusMap[fields[1] := fields[2]];
      } else if |fields| > 3 && fields[0] != "Id" {
        vmStatusMap := vmStatusMap[fields[1] := fields[2] + " " + fields[3]];
      }
    }
    assert lines[..|lines|] == lines;
    return Some(vmStatusMap);
  }

  /** A domain's state has one word ("running") or two ("shut off"). */
  datatype State = OneWord(word: string) | TwoWords(first: string, second: string)

  function Shown(s: State): string {
    match s
    case OneWord(word) => word
    case TwoWords(first, second) => first + (" " + second)
  }

  datatype Domain = Domain(id: string, name: string, state: State)

  predicate Printable(d: Domain) {
    && IsWord(d.id) && d.id != "Id" && IsWord(d.name)
    && match d.state
       case OneWord(word) => IsWord(word)
       case TwoWords(first, second) => IsWord(first) && IsWord(second)
  }

  /** The white space of a line: before, between and after its columns. */
  datatype Padding = Padding(lead: string, afterId: string, afterName: string, trail: string)

  predicate Pads(p: Padding) {
    && IsBlank(p.lead + p.afterId + p.afterName + p.trail) && p.afterId != "" && p.afterName != ""
    && '\n' !in p.lead && '\n' !in p.afterId && '\n' !in p.afterName && '\n' !in p.trail
  }

  function Line(id: string, name: string, state: string, p: Padding): string {
    p.lead + (id + (p.afterId + (name + (p.afterName + (state + p.trail)))))
  }

  function Header(p: Padding): string { Line("Id", "Name", "State", p) }

  function Rule(width: nat): string { seq(width, _ => '-') }

  function DomainLine(d: Domain, p: Padding): string { Line(d.id, d.name, Shown(d.state), p) }

  function DomainLines(ds: seq<Domain>, pads: nat -> Padding): seq<string> {
    seq(|ds|, (k: nat) requires k < |ds| => DomainLine(ds[k], pads(k)))
  }

  /** The whole output: header, rule, one line per domain, an empty line, and a final line end. */
  function Table(top: Padding, width: nat, ds: seq<Domain>, pads: nat -> Padding): string {
    Join([Header(top), Rule(width)] + DomainLines(ds, pads) + ["", ""], "\n")
  }

  function StateWords(s: State): seq<string> {
    match s
    case OneWord(word) => [word]
    case TwoWords(first, second) => [first, second]
  }

  lemma FieldsOfState(blank: string, s: State, trail: string)
    requires IsBlank(blank) && IsBlank(trail)
    requires forall w | w in StateWords(s) :: IsWord(w)
    ensures Fields(blank + (Shown(s) + trail)) == StateWords(s)
  {
    FieldsOfBlank(trail);
    match s
    case OneWord(word) => FieldsStep(blank, word, trail);
    case TwoWords(first, second) =>
      assert (first + (" " + second)) + trail == first + (" " + (second + trail));
      FieldsStep(" ", second, trail);
      FieldsStep(blank, first, " " + (second + trail));
  }

  lemma FieldsOfLine(id: string, name: string, state: State, p: Padding)
    requires IsWord(id) && IsWord(name) && Pads(p) && forall w | w in StateWords(state) :: IsWord(w)
    ensures Fields(Line(id, name, Shown(state), p)) == [id] + ([name] + StateWords(state))
  {
    PadsAreBlank(p);
    var rest := p.afterName + (Shown(state) + p.trail);
    FieldsOfState(p.afterName, state, p.trail);
    FieldsStep(p.afterId, name, rest);
    FieldsStep(p.lead, id, p.afterId + (name + rest));
  }

  lemma PadsAreBlank(p: Padding)
    requires Pads(p)
    ensures IsBlank(p.lead) && IsBlank(p.afterId) && IsBlank(p.afterName) && IsBlank(p.trail)
    ensures IsSpace(p.afterId[0]) && IsSpace(p.afterName[0])
  {
    var all := p.lead + p.afterId + p.afterName + p.trail;
    assert forall c | c in p.lead || c in p.afterId || c in p.afterName || c in p.trail :: c in all;
  }

  lemma ThreeFieldsRead(line: string, id: string, name: string, word: string, statuses: map<string, string>)
    requires Fields(line) == [id] + ([name] + [word]) && id != "Id"
    ensures ReadLine(line, statuses) == statuses[name := word]
  {
    assert [id] + ([name] + [word]) == [id, name, word];
  }

  lemma FourFieldsRead(line: string, id: string, name: string, first: string, second: string,
                       statuses: map<string, string>)
    requires Fields(line) == [id] + ([name] + [first, second]) && id != "Id"
    ensures ReadLine(line, statuses) == statuses[name := first + (" " + second)]
  {
    assert [id] + ([name] + [first, second]) == [id, name, first, second];
    assert first + (" " + second) == first + " " + second;
  }

  lemma FieldsRead(line: string, id: string, name: string, state: State, statuses: map<string, string>)
    requires Fields(line) == [id] + ([name] + StateWords(state)) && id != "Id"
    ensures ReadLine(line, statuses) == statuses[name := Shown(state)]
  {
    match state
    case OneWord(word) => ThreeFieldsRead(line, id, name, word, statuses);
    case TwoWords(first, second) => FourFieldsRead(line, id, name, first, second, statuses);
  }

  /** A domain's line is read as its name and its state. */
  lemma DomainLineReads(d: Domain, p: Padding, statuses: map<string, string>)
    requires Printable(d) && Pads(p)
    ensures ReadLine(DomainLine(d, p), statuses) == statuses[d.name := Shown(d.state)]
  {
    assert forall w | w in StateWords(d.state) :: IsWord(w);
    FieldsOfLine(d.id, d.name, d.state, p);
    FieldsRead(DomainLine(d, p), d.id, d.name, d.state, statuses);
  }

  lemma HeaderIsSkipped(p: Padding, statuses: map<string, string>)
    requires Pads(p)
    ensures ReadLine(Header(p), statuses) == statuses
  {
    FieldsOfLine("Id", "Name", OneWord("State"), p);
  }

  lemma RuleIsSkipped(width: nat, statuses: map<string, string>)
    ensures ReadLine(Rule(width), statuses) == statuses
  {
    if width == 0 {
      FieldsOfBlank(Rule(0));
    } else {
      FieldsOfBlank("");
      FieldsStep("", Rule(width), "");
      assert "" + (Rule(width) + "") == Rule(width);
    }
  }

  lemma LineHasNoBreak(id: string, name: string, state: State, p: Padding)
    requires IsWord(id) && IsWord(name) && Pads(p) && forall w | w in StateWords(state) :: IsWord(w)
    ensures '\n' !in Line(id, name, Shown(state), p)
  {
    assert '\n' !in id && '\n' !in name;
    assert forall w | w in StateWords(state) :: '\n' !in w;
    assert '\n' !in Shown(state) by {
      match state
      case OneWord(word) => assert word in StateWords(state);
      case TwoWords(first, second) => assert first in StateWords(state) && second in StateWords(state);
    }
  }

  ghost predicate IsListing(statuses: map<string, string>, ds: seq<Domain>) {
    && (forall name :: name in statuses <==> exists k :: 0 <= k < |ds| && ds[k].name == name)
    && (forall k | 0 <= k < |ds| :: ds[k].name in statuses && statuses[ds[k].name] == Shown(ds[k].state))
  }

  /** The line adds the domain to any map. */
  ghost predicate Adds(line: string, d: Domain) {
    forall statuses :: ReadLine(line, statuses) == statuses[d.name := Shown(d.state)]
  }

  lemma ReadLinesAppend(lines: seq<string>, line: string)
    ensures ReadLines(lines + [line]) == ReadLine(line, ReadLines(lines))
  {
    assert (lines + [line])[..|lines|] == lines;
  }

  lemma {:induction false} ListingOf(read: nat -> map<string, string>, ds: seq<Domain>, n: nat)
    requires n <= |ds| && read(0) == map[]
    requires forall k: nat | k < n :: read(k + 1) == read(k)[ds[k].name := Shown(ds[k].state)]
    requires forall i, j | 0 <= i < j < |ds| :: ds[i].name != ds[j].name
    ensures IsListing(read(n), ds[..n])
  {
    if n > 0 {
      ListingOf(read, ds, n - 1);
      assert read((n - 1) + 1) == read(n - 1)[ds[n - 1].name := Shown(ds[n - 1].state)];
      ListingGrows(read(n - 1), ds, n);
    }
  }

  lemma OneMoreLine(head: seq<string>, lines: seq<string>, k: nat, d: Domain)
    requires k < |lines| && Adds(lines[k], d)
    ensures ReadLines(head + lines[..k + 1]) == ReadLines(head + lines[..k])[d.name := Shown(d.state)]
  {
    ReadLinesAppend(head + lines[..k], lines[k]);
    assert head + lines[..k + 1] == head + lines[..k] + [lines[k]];
  }

  lemma LinesRead(head: seq<string>, lines: seq<string>, ds: seq<Domain>)
    requires ReadLines(head) == map[] && |lines| == |ds|
    requires forall k | 0 <= k < |ds| :: Adds(lines[k], ds[k])
    requires forall i, j | 0 <= i < j < |ds| :: ds[i].name != ds[j].name
    ensures IsListing(ReadLines(head + lines), ds)
  {
    var read: nat -> map<string, string> := (k: nat) => if k <= |lines| then ReadLines(head + lines[..k]) else map[];
    assert head + lines[..0] == head && lines[..|lines|] == lines && ds[..|ds|] == ds;
    forall k: nat | k < |ds| ensures read(k + 1) == read(k)[ds[k].name := Shown(ds[k].state)] {
      OneMoreLine(head, lines, k, ds[k]);
    }
    ListingOf(read, ds, |ds|);
  }

  lemma HeadReads(top: Padding, width: nat)
    requires Pads(top)
    ensures ReadLines([Header(top), Rule(width)]) == map[]
  {
    HeaderIsSkipped(top, map[]);
    RuleIsSkipped(width, map[]);
    ReadLinesAppend([], Header(top));
    ReadLinesAppend([Header(top)], Rule(width));
    assert [] + [Header(top)] == [Header(top)] && [Header(top)] + [Rule(width)] == [Header(top), Rule(width)];
  }

  lemma ListingGrows(statuses: map<string, string>, ds: seq<Domain>, n: nat)
    requires 0 < n <= |ds| && IsListing(statuses, ds[..n - 1])
    requires forall i, j | 0 <= i < j < |ds| :: ds[i].name != ds[j].name
    ensures IsListing(statuses[ds[n - 1].name := Shown(ds[n - 1].state)], ds[..n])
  {
    var more := statuses[ds[n - 1].name := Shown(ds[n - 1].state)];
    forall name ensures name in more <==> exists k :: 0 <= k < n && ds[..n][k].name == name {
      if name in statuses {
        var k :| 0 <= k < n - 1 && ds[..n - 1][k].name == name;
        assert ds[..n][k].name == name;
      }
      assert ds[..n][n - 1].name == ds[n - 1].name;
      if k :| 0 <= k < n && ds[..n][k].name == name {
        assert k < n - 1 ==> ds[..n - 1][k].name == name;
      }
    }
    forall k | 0 <= k < n ensures ds[..n][k].name in more && more[ds[..n][k].name] == Shown(ds[..n][k].state) {
      assert k < n - 1 ==> ds[..n - 1][k] == ds[k];
    }
  }

  /** Reading the printed table gives back each domain's name and state and nothing else, whatever the
      widths of the columns and the length of the rule. */
  lemma TableRoundTrip(top: Padding, width: nat, ds: seq<Domain>, pads: nat -> Padding)
    requires Pads(top) && forall k: nat | k < |ds| :: Printable(ds[k]) && Pads(pads(k))
    requires forall i, j | 0 <= i < j < |ds| :: ds[i].name != ds[j].name
    ensures IsListing(ReadLines(Split(Table(top, width, ds, pads), '\n')), ds)
  {
    var body := [Header(top), Rule(width)] + DomainLines(ds, pads);
    LinesHaveNoBreak(top, width, ds, pads);
    SplitJoin(body + ["", ""], '\n');
    HeadReads(top, width);
    forall k: nat | k < |ds| ensures Adds(DomainLines(ds, pads)[k], ds[k]) {
      forall statuses
        ensures ReadLine(DomainLine(ds[k], pads(k)), statuses) == statuses[ds[k].name := Shown(ds[k].state)]
      {
        DomainLineReads(ds[k], pads(k), statuses);
      }
    }
    LinesRead([Header(top), Rule(width)], DomainLines(ds, pads), ds);
    EmptyLinesAreSkipped(body);
  }

  lemma EmptyLinesAreSkipped(lines: seq<string>)
    ensures ReadLines(lines + ["", ""]) == ReadLines(lines)
  {
    FieldsOfBlank("");
    var one, two := lines + [""], lines + ["", ""];
    assert two[..|two| - 1] == one && one[..|one| - 1] == lines;
  }

  lemma LinesHaveNoBreak(top: Padding, width: nat, ds: seq<Domain>, pads: nat -> Padding)
    requires Pads(top) && forall k: nat | k < |ds| :: Printable(ds[k]) && Pads(pads(k))
    ensures forall line | line in [Header(top), Rule(width)] + DomainLines(ds, pads) + ["", ""] :: '\n' !in line
  {
    LineHasNoBreak("Id", "Name", OneWord("State"), top);
    forall k: nat | k < |ds| ensures '\n' !in DomainLine(ds[k], pads(k)) {
      assert forall w | w in StateWords(ds[k].state) :: IsWord(w);
      LineHasNoBreak(ds[k].id, ds[k].name, ds[k].state, pads(k));
    }
  }

  // ----- Waiting for a domain to shut down

  const SECOND := 1_000_000_000
  const SHUTDOWN_WAIT_TIME := 5 * SECOND
  const RETRY_SHUTDOWN_WAIT_TIME := 10 * SECOND
  const FORCE_SHUTDOWN_WAIT_TIME := 20 * SECOND
  const SHUTOFF_STATUS := "shut off"

  datatype ShutdownAnswer = Accepted | NotRunningHere | Refused

  datatype StopOutcome = Stopped | Forced | BadRequest | Failed

  /** What one round of the loop meets: the statuses ListInstancesStatus returns if it succeeds, how
      much time passes before the clock is read and between its two readings, and whether the commands
      it may give succeed. */
  datatype Poll = Poll(
    statuses: Option<map<string, string>>, late: nat, between: nat, retryAccepted: bool, destroyed: bool)

  datatype Wait = Waiting(elapsed: nat, retryShutdown: bool) | Done(outcome: StopOutcome)

  const BEGINNING := Waiting(0, true)

  /** The domain is listed, or the listing fails. */
  predicate Answers(p: Poll, id: string) {
    p.statuses.Some? ==> id in p.statuses.value
  }

  predicate SeenShutOff(p: Poll, id: string) {
    p.statuses.Some? && id in p.statuses.value && p.statuses.value[id] == SHUTOFF_STATUS
  }

  function React(w: Wait, status: string, p: Poll): Wait
    requires w.Waiting?
  {
    if status == SHUTOFF_STATUS then Done(Stopped)
    else
      var elapsed := w.elapsed + p.late;
      if elapsed >= FORCE_SHUTDOWN_WAIT_TIME then Done(if p.destroyed then Forced else Failed)
      else if elapsed + p.between >= RETRY_SHUTDOWN_WAIT_TIME && w.retryShutdown then
        if p.retryAccepted then Waiting(elapsed + p.between, false) else Done(Failed)
      else Waiting(elapsed + p.between + SHUTDOWN_WAIT_TIME, w.retryShutdown)
  }

  function Round(w: Wait, id: string, p: Poll): Wait {
    if w.Done? then w
    else if p.statuses.None? then Done(Failed)
    else if id !in p.statuses.value then Waiting(w.elapsed + p.late, w.retryShutdown)
    else React(w, p.statuses.value[id], p)
  }

  function Rounds(w: Wait, id: string, polls: seq<Poll>): Wait {
    if polls == [] then w else Round(Rounds(w, id, polls[..|polls| - 1]), id, polls[|polls| - 1])
  }

  function AnswerCount(polls: seq<Poll>, id: string): nat {
    if polls == [] then 0
    else AnswerCount(polls[..|polls| - 1], id) + if Answers(polls[|polls| - 1], id) then 1 else 0
  }

  /** How many more answers the loop can take before it ends. */
  function Budget(w: Wait): nat {
    match w
    case Done(_) => 0
    case Waiting(elapsed, retryShutdown) =>
      1 + (if retryShutdown then 1 else 0)
      + if elapsed >= FORCE_SHUTDOWN_WAIT_TIME then 0
        else (FORCE_SHUTDOWN_WAIT_TIME - elapsed + SHUTDOWN_WAIT_TIME - 1) / SHUTDOWN_WAIT_TIME
  }

  predicate Spends(w: Wait, w': Wait, answered: bool) {
    Budget(w') <= Budget(w) && (answered ==> Budget(w') < Budget(w))
  }

  lemma RoundSpends(w: Wait, id: string, p: Poll)
    requires w.Waiting?
    ensures Spends(w, Round(w, id, p), Answers(p, id))
  {
  }

  lemma {:induction false} RoundsSpend(w: Wait, id: string, polls: seq<Poll>)
    ensures var w' := Rounds(w, id, polls); w'.Done? || AnswerCount(polls, id) + Budget(w') <= Budget(w)
  {
    if polls != [] {
      var before := Rounds(w, id, polls[..|polls| - 1]);
      RoundsSpend(w, id, polls[..|polls| - 1]);
      if before.Waiting? {
        RoundSpends(before, id, polls[|polls| - 1]);
      }
    }
  }

  /** Six answers end the loop, wherever they stand among the polls and however long anything takes. */
  lemma SixAnswersEnd(id: string, polls: seq<Poll>)
    requires AnswerCount(polls, id) >= 6
    ensures Rounds(BEGINNING, id, polls).Done?
  {
    RoundsSpend(BEGINNING, id, polls);
  }

  /** While the domain is not listed the loop goes on from wherever it stands: it polls again at once,
      without sleeping, and neither repeats the shutdown nor forces it, whatever the clock says. */
  lemma {:induction false} WithoutAnswersItWaits(w: Wait, id: string, polls: seq<Poll>)
    requires w.Waiting? && forall p | p in polls :: !Answers(p, id)
    ensures Rounds(w, id, polls).Waiting? && Rounds(w, id, polls).retryShutdown == w.retryShutdown
  {
    if polls != [] {
      assert !Answers(polls[|polls| - 1], id);
      WithoutAnswersItWaits(w, id, polls[..|polls| - 1]);
    }
  }

  function FirstPolls(polls: nat -> Poll, n: nat): (r: seq<Poll>)
    ensures |r| == n && forall k: nat | k < n :: r[k] == polls(k)
  {
    seq(n, (k: nat) => polls(k))
  }

  /** Where the loop stands after `n` polls. */
  function After(id: string, polls: nat -> Poll, n: nat): Wait { Rounds(BEGINNING, id, FirstPolls(polls, n)) }

  lemma NextRound(id: string, polls: nat -> Poll, k: nat)
    ensures After(id, polls, k + 1) == Round(After(id, polls, k), id, polls(k))
    ensures AnswerCount(FirstPolls(polls, k + 1), id)
         == AnswerCount(FirstPolls(polls, k), id) + if Answers(polls(k), id) then 1 else 0
  {
    var all := FirstPolls(polls, k + 1);
    assert all[..|all| - 1] == FirstPolls(polls, k) && all[|all| - 1] == polls(k);
  }

  // ----- What the clock shows

  predicate Listed(p: Poll, id: string) { p.statuses.Some? && id in p.statuses.value }

  /** What the polls themselves take: the delay before the clock is read and, if the domain is listed, the
      delay after it. */
  function Delays(id: string, polls: seq<Poll>): nat {
    if polls == [] then 0
    else
      var last := polls[|polls| - 1];
      Delays(id, polls[..|polls| - 1]) + last.late + if Listed(last, id) then last.between else 0
  }

  function Listings(id: string, polls: seq<Poll>): nat {
    if polls == [] then 0
    else Listings(id, polls[..|polls| - 1]) + if Listed(polls[|polls| - 1], id) then 1 else 0
  }

  predicate HasRepeated(w: Wait) { w.Waiting? && !w.retryShutdown }

  /** The polls' delays, and five seconds of sleep behind every poll that lists the domain but the one
      that repeats the shutdown. */
  function Passed(id: string, polls: seq<Poll>): int {
    Delays(id, polls)
    + 5_000_000_000 * (Listings(id, polls) - if HasRepeated(Rounds(BEGINNING, id, polls)) then 1 else 0)
  }

  lemma {:induction false} ElapsedIsPassed(id: string, polls: seq<Poll>)
    ensures var w := Rounds(BEGINNING, id, polls); w.Waiting? ==> w.elapsed == Passed(id, polls)
  {
    if polls != [] {
      ElapsedIsPassed(id, polls[..|polls| - 1]);
    }
  }

  /** What a poll of a domain that is still up leads to: past twenty seconds it is forced, before that the
      one repetition comes as soon as ten have passed, else the loop goes on. */
  lemma ClockDecides(id: string, polls: seq<Poll>, p: Poll)
    requires Rounds(BEGINNING, id, polls).Waiting? && Listed(p, id) && !SeenShutOff(p, id)
    ensures var w, w' := Rounds(BEGINNING, id, polls), Rounds(BEGINNING, id, polls + [p]);
            var first := Passed(id, polls) + p.late;
            var second := first + p.between;
            w' == if first >= 20_000_000_000 then Done(if p.destroyed then Forced else Failed)
                  else if second >= 10_000_000_000 && w.retryShutdown
                       then (if p.retryAccepted then Waiting(second, false) else Done(Failed))
                  else Waiting(second + 5_000_000_000, w.retryShutdown)
  {
    ElapsedIsPassed(id, polls);
    assert (polls + [p])[..|polls|] == polls;
  }

  /** What has passed when poll `k` reads the clock. */
  function ClockAt(id: string, polls: nat -> Poll, k: nat): int { Passed(id, FirstPolls(polls, k)) + polls(k).late }

  /** Poll `k` finds the domain still up, with the repetition left, in its eleventh to twentieth second. */
  predicate DueForRetry(id: string, polls: nat -> Poll, k: nat) {
    && Listed(polls(k), id) && !SeenShutOff(polls(k), id)
    && After(id, polls, k).Waiting? && After(id, polls, k).retryShutdown
    && ClockAt(id, polls, k) < 20_000_000_000 && ClockAt(id, polls, k) + polls(k).between >= 10_000_000_000
  }

  lemma ClockIs(id: string, polls: nat -> Poll, k: nat)
    requires After(id, polls, k).Waiting?
    ensures ClockAt(id, polls, k) == After(id, polls, k).elapsed + polls(k).late
  {
    ElapsedIsPassed(id, FirstPolls(polls, k));
  }

  /** The shutdown is repeated before poll `n` exactly if some poll before it was due for that. */
  lemma {:induction false} RepeatedIffDue(id: string, polls: nat -> Poll, n: nat)
    requires After(id, polls, n).Waiting?
    ensures !After(id, polls, n).retryShutdown <==> exists k: nat :: k < n && DueForRetry(id, polls, k)
  {
    if n > 0 {
      NextRound(id, polls, n - 1);
      RepeatedIffDue(id, polls, n - 1);
      ElapsedIsPassed(id, FirstPolls(polls, n - 1));
      assert !After(id, polls, n).retryShutdown <==>
             !After(id, polls, n - 1).retryShutdown || DueForRetry(id, polls, n - 1);
    }
  }

  // ----- Exactly when the loop ends

  ghost predicate Ends(id: string, polls: nat -> Poll) { exists n: nat :: After(id, polls, n).Done? }

  ghost predicate SilentFrom(id: string, polls: nat -> Poll,
                             m: nat) { forall k: nat | k >= m :: !Answers(polls(k), id) }

  lemma {:induction false} DoneStays(id: string, polls: nat -> Poll, n: nat, later: nat)
    requires After(id, polls, n).Done? && n <= later
    ensures After(id, polls, later) == After(id, polls, n)
    decreases later
  {
    if n < later {
      DoneStays(id, polls, n, later - 1);
      NextRound(id, polls, later - 1);
    }
  }

  lemma {:induction false} SilenceKeepsWaiting(id: string, polls: nat -> Poll, m: nat, later: nat)
    requires After(id, polls, m).Waiting? && SilentFrom(id, polls, m) && m <= later
    ensures After(id, polls, later).Waiting?
    decreases later
  {
    if m < later {
      SilenceKeepsWaiting(id, polls, m, later - 1);
      NextRound(id, polls, later - 1);
      assert !Answers(polls((later - 1) as nat), id);
    }
  }

  lemma {:induction false} AnswersDoNotShrink(id: string, polls: nat -> Poll, n: nat, later: nat)
    requires n <= later
    ensures AnswerCount(FirstPolls(polls, n), id) <= AnswerCount(FirstPolls(polls, later), id)
    decreases later
  {
    if n < later {
      AnswersDoNotShrink(id, polls, n, later - 1);
      NextRound(id, polls, later - 1);
    }
  }

  /** If the domain never falls silent for good, its answers pile up. */
  lemma {:induction false} AnswersPileUp(id: string, polls: nat -> Poll, count: nat) returns (n: nat)
    requires forall m: nat :: !SilentFrom(id, polls, m)
    ensures AnswerCount(FirstPolls(polls, n), id) >= count
  {
    n := 0;
    if count > 0 {
      var m := AnswersPileUp(id, polls, count - 1);
      assert !SilentFrom(id, polls, m);
      var k: nat :| k >= m && Answers(polls(k), id);
      AnswersDoNotShrink(id, polls, m, k);
      NextRound(id, polls, k);
      n := k + 1;
    }
  }

  lemma NeverSilentEnds(id: string, polls: nat -> Poll)
    requires forall m: nat :: !SilentFrom(id, polls, m)
    ensures Ends(id, polls)
  {
    var n := AnswersPileUp(id, polls, 6);
    SixAnswersEnd(id, FirstPolls(polls, n));
    assert After(id, polls, n).Done?;
  }

  /** A domain that stays listed ends it within six polls. */
  lemma {:induction false} ListedEndsInSix(id: string, polls: nat -> Poll, n: nat)
    requires forall k: nat | k < n :: Answers(polls(k), id)
    ensures AnswerCount(FirstPolls(polls, n), id) == n
    ensures n >= 6 ==> After(id, polls, n).Done?
  {
    if n > 0 {
      ListedEndsInSix(id, polls, n - 1);
      NextRound(id, polls, n - 1);
      assert Answers(polls((n - 1) as nat), id);
    }
    if n >= 6 {
      SixAnswersEnd(id, FirstPolls(polls, n));
    }
  }

  /** The loop ends if and only if it does not, while still waiting, see the last of the domain: from
      then on no poll lists it and none fails. */
  lemma EndsIff(id: string, polls: nat -> Poll)
    ensures Ends(id, polls) <==> !exists m: nat :: After(id, polls, m).Waiting? && SilentFrom(id, polls, m)
  {
    if Ends(id, polls) {
      var n: nat :| After(id, polls, n).Done?;
      forall m: nat | After(id, polls, m).Waiting? ensures !SilentFrom(id, polls, m) {
        if n <= m {
          DoneStays(id, polls, n, m);
        } else if SilentFrom(id, polls, m) {
          SilenceKeepsWaiting(id, polls, m, n);
        }
      }
    } else {
      if forall m: nat :: !SilentFrom(id, polls, m) {
        NeverSilentEnds(id, polls);
      } else {
        var m: nat :| SilentFrom(id, polls, m);
        assert After(id, polls, m).Waiting?;
      }
    }
  }

  /** One round of the loop; no outcome means that it goes on. */
  method CheckDomain(id: string, p: Poll, elapsedBefore: nat, retryBefore: bool)
    returns (outcome: Option<StopOutcome>, elapsed: nat, retryShutdown: bool, ghost retried: bool)
    ensures Round(Waiting(elapsedBefore, retryBefore), id, p)
         == if outcome.Some? then Done(outcome.value) else Waiting(elapsed, retryShutdown)
    ensures retried <==> retryBefore && Listed(p, id) && !SeenShutOff(p, id)
                         && elapsedBefore + p.late < 20_000_000_000
                         && elapsedBefore + p.late + p.between >= 10_000_000_000
    ensures retried ==> !retryShutdown
    ensures outcome.None? && !retried ==> retryShutdown == retryBefore
    ensures outcome != Some(BadRequest)
    ensures outcome == Some(Stopped) ==> SeenShutOff(p, id)
    ensures outcome == Some(Forced)
            ==> p.destroyed && !SeenShutOff(p, id) && elapsedBefore + p.late >= 20_000_000_000
    // Time runs out in every round that finds the domain and neither ends nor repeats the shutdown.
    ensures Answers(p, id) && outcome.None? && !retried
            ==> elapsedBefore < FORCE_SHUTDOWN_WAIT_TIME && elapsed >= elapsedBefore + SHUTDOWN_WAIT_TIME
    ensures elapsed >= elapsedBefore
    ensures outcome.None?
            ==> Spends(Waiting(elapsedBefore, retryBefore), Waiting(elapsed, retryShutdown), Answers(p, id))
  {
    RoundSpends(Waiting(elapsedBefore, retryBefore), id, p);
    outcome, elapsed, retryShutdown, retried := None, elapsedBefore, retryBefore, false;
    var statuses := p.statuses;
    if statuses.None? { return Some(Failed), elapsed, retryShutdown, retried; }
    elapsed := elapsed + p.late;
    if id in statuses.value {
      if statuses.value[id] != SHUTOFF_STATUS {
        if elapsed >= FORCE_SHUTDOWN_WAIT_TIME {
          return Some(if p.destroyed then Forced else Failed), elapsed, retryShutdown, retried;
        }
        elapsed := elapsed + p.between;
        if elapsed >= RETRY_SHUTDOWN_WAIT_TIME && retryShutdown {
          retryShutdown, retried := false, true;
          if !p.retryAccepted { outcome := Some(Failed); }
        } else {
          elapsed := elapsed + SHUTDOWN_WAIT_TIME;
        }
      } else {
        outcome := Some(Stopped);
      }
    }
  }

  /** How many of the polls from `k` to before `n` do not list the domain. */
  ghost function Silences(id: string, polls: nat -> Poll, k: nat, n: nat): nat
    decreases n - k
  {
    if k >= n then 0 else (if Answers(polls(k), id) then 0 else 1) + Silences(id, polls, k + 1, n)
  }

  /** The request, watched for some number of polls; no outcome means that the loop is still going.
      Every poll that does not end it uses up a silence, time, or the one retry, in this order. */
  method StopInstance(id: string, first: ShutdownAnswer, polls: nat -> Poll, watched: nat)
    returns (outcome: Option<StopOutcome>, ghost polled: nat, ghost shutdowns: nat)
    ensures outcome == Some(BadRequest) <==> first == NotRunningHere
    ensures first == Refused ==> outcome == Some(Failed)
    ensures outcome.None? <==> first == Accepted && After(id, polls, watched).Waiting?
    ensures first == Accepted && outcome.Some? ==> After(id, polls, polled) == Done(outcome.value)
    ensures polled <= watched && AnswerCount(FirstPolls(polls, polled), id) <= 6 && 1 <= shutdowns <= 2
    ensures outcome == Some(Stopped) ==> polled > 0 && SeenShutOff(polls(polled - 1), id)
    ensures outcome == Some(Forced) ==> polled > 0 && polls(polled - 1).destroyed && !SeenShutOff(polls(polled - 1), id)
    // Forced only after twenty seconds, repeated only between ten and twenty.
    ensures outcome == Some(Forced) ==> ClockAt(id, polls, polled - 1) >= 20_000_000_000
    ensures shutdowns == 2 ==> exists k: nat :: k < polled && DueForRetry(id, polls, k)
  {
    hide ClockAt, Round, Answers, SeenShutOff, Listed, FirstPolls;
    shutdowns, polled := 1, 0;
    if first == NotRunningHere { return Some(BadRequest), polled, shutdowns; }
    if first == Refused { return Some(Failed), polled, shutdowns; }
    var elapsed: nat, retryShutdown, k: nat := 0, true, 0;
    while k < watched
      invariant polled == k <= watched
      invariant After(id, polls, k) == Waiting(elapsed, retryShutdown)
      invariant shutdowns == if retryShutdown then 1 else 2
      invariant shutdowns == 2 ==> exists j: nat :: j < k && DueForRetry(id, polls, j)
      invariant AnswerCount(FirstPolls(polls, k), id) + Budget(Waiting(elapsed, retryShutdown)) <= 6
      decreases Silences(id, polls, k, watched),
                if elapsed < FORCE_SHUTDOWN_WAIT_TIME then FORCE_SHUTDOWN_WAIT_TIME - elapsed else 0,
                retryShutdown
    {
      NextRound(id, polls, k);
      ClockIs(id, polls, k);
      var result: Option<StopOutcome>;
      ghost var retried;
      result, elapsed, retryShutdown, retried := CheckDomain(id, polls(k), elapsed, retryShutdown);
      assert retried ==> DueForRetry(id, polls, k);
      k, polled := k + 1, polled + 1;
      if retried { shutdowns := shutdowns + 1; }
      if result.Some? {
        DoneStays(id, polls, k, watched);
        return result, polled, shutdowns;
      }
    }
    outcome := None;
  }
}
