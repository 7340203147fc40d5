/** The CSS `url(...)` scanner of the link checker: `re.finditer` with the
    pattern  url\(\s*.(.*).\s*\)  under Python's `re` semantics.

    The pattern reads: the literal `url(`, greedy whitespace (the "lead"),
    one character other than a newline that is dropped, a greedy run of
    characters other than a newline that is captured, one more character
    other than a newline that is dropped, greedy whitespace (the "trail")
    and a literal `)`. Python's backtracking engine tries the greedy counts
    from the largest down, the lead first, so among the matches that start
    at one position it returns the one with the largest lead, then the
    longest capture, then the largest trail. `finditer` returns the
    leftmost such match, then searches again from where it ended. */
module CssScan {
  import opened Wrappers

  /** Python's `\s` on a `str` pattern: the characters for which
      `str.isspace()` holds, which include the newline. */
  predicate IsSpace(c: char) {
    ('\t' <= c <= '\r') || ('\U{1C}' <= c <= ' ') || c == '\U{85}' || c == '\U{A0}' ||
    c == '\U{1680}' || ('\U{2000}' <= c <= '\U{200A}') || c == '\U{2028}' || c == '\U{2029}' ||
    c == '\U{202F}' || c == '\U{205F}' || c == '\U{3000}'
  }

  /** Every character of s[a..b] is whitespace. */
  predicate AllSpace(s: string, a: nat, b: nat)
    requires a <= b <= |s|
  {
    forall t | a <= t < b :: IsSpace(s[t])
  }

  /** No character of s[a..b] is a newline, so `.` matches each of them. */
  predicate NoNewline(s: string, a: nat, b: nat)
    requires a <= b <= |s|
  {
    forall t | a <= t < b :: s[t] != '\n'
  }

  /** One way the pattern can match: it starts at `start`, the first `\s*`
      takes `lead` characters, the group takes `len` and the second `\s*`
      takes `trail`. */
  datatype Match = Match(start: nat, lead: nat, len: nat, trail: nat) {
    /** Where group 1 begins: after `url(`, the lead and one dropped character. */
    function CapStart(): nat { start + 5 + lead }
    /** Where group 1 ends; the character here is dropped. */
    function CapEnd(): nat { CapStart() + len }
    /** The position of the closing parenthesis. */
    function Close(): nat { CapEnd() + 1 + trail }
    /** The end of the whole match (exclusive). */
    function End(): nat { Close() + 1 }
  }

  /** `m` is a match of  url\(\s*.(.*).\s*\)  in `s`. */
  predicate MatchAt(s: string, m: Match) {
    m.End() <= |s| &&
    s[m.start..m.start + 4] == "url(" &&
    AllSpace(s, m.start + 4, m.start + 4 + m.lead) &&
    s[m.CapStart() - 1] != '\n' &&
    NoNewline(s, m.CapStart(), m.CapEnd()) &&
    s[m.CapEnd()] != '\n' &&
    AllSpace(s, m.CapEnd() + 1, m.Close()) &&
    s[m.Close()] == ')'
  }

  /** The backtracking engine tries `a` before `b`: same start, and the
      greedy counts of `a` are larger, compared lead first, then group, then trail. */
  predicate Outranks(a: Match, b: Match) {
    a.start == b.start &&
    (a.lead > b.lead ||
     (a.lead == b.lead && (a.len > b.len || (a.len == b.len && a.trail > b.trail))))
  }

  /** `m` is the match Python's engine reports for its start position. */
  ghost predicate Preferred(s: string, m: Match) {
    MatchAt(s, m) && forall m': Match :: Outranks(m', m) ==> !MatchAt(s, m')
  }

  /** `r` is what `re.search` reports when it scans `s` from `pos`: the
      preferred match at the leftmost position that has one, or none. */
  ghost predicate FirstMatch(s: string, pos: nat, r: Option<Match>) {
    match r
    case None => forall m: Match :: pos <= m.start ==> !MatchAt(s, m)
    case Some(m) =>
      pos <= m.start && Preferred(s, m) &&
      forall m': Match :: pos <= m'.start < m.start ==> !MatchAt(s, m')
  }

  // ---------------------------------------------------------------------
  // The engine

  /** How many whitespace characters a greedy `\s*` takes at `a`. */
  function WsRun(s: string, a: nat): (k: nat)
    requires a <= |s|
    ensures a + k <= |s| && AllSpace(s, a, a + k)
    ensures a + k < |s| ==> !IsSpace(s[a + k])
    decreases |s| - a
  {
    if a < |s| && IsSpace(s[a]) then 1 + WsRun(s, a + 1) else 0
  }

  /** How many characters a greedy `.*` takes at `a`: up to the next newline. */
  function LineRun(s: string, a: nat): (k: nat)
    requires a <= |s|
    ensures a + k <= |s| && NoNewline(s, a, a + k)
    ensures a + k < |s| ==> s[a + k] == '\n'
    decreases |s| - a
  {
    if a < |s| && s[a] != '\n' then 1 + LineRun(s, a + 1) else 0
  }

  /** The rest of the pattern,  .\s*\) , tried at `q`; the trail on success.
      The `\s*` is followed by `)`, which is not whitespace, so only its
      greedy count can succeed. */
  function Tail(s: string, q: nat): (r: Option<nat>)
    requires q <= |s|
    ensures r.Some? ==> q + 1 + r.value < |s|
  {
    if q < |s| && s[q] != '\n' then
      var k := WsRun(s, q + 1);
      if q + 1 + k < |s| && s[q + 1 + k] == ')' then Some(k) else None
    else None
  }

  /** `url(`, the lead and the first dropped character all match. */
  predicate LeadOk(s: string, start: nat, lead: nat) {
    start + 5 + lead <= |s| &&
    s[start..start + 4] == "url(" &&
    AllSpace(s, start + 4, start + 4 + lead) &&
    s[start + 4 + lead] != '\n'
  }

  /** Backtracking over the group: lengths n, n - 1, ..., 0 in turn. */
  function TryLen(s: string, start: nat, lead: nat, n: nat): (r: Option<Match>)
    requires start + 5 + lead + n <= |s|
    decreases n
  {
    match Tail(s, start + 5 + lead + n)
    case Some(k) => Some(Match(start, lead, n, k))
    case None => if n == 0 then None else TryLen(s, start, lead, n - 1)
  }

  /** Backtracking over the lead: counts lead, lead - 1, ..., 0 in turn, each
      with the group as long as the line allows. */
  function TryLead(s: string, start: nat, lead: nat): (r: Option<Match>)
    requires start + 4 + lead <= |s|
    decreases lead
  {
    var here := LeadAttempt(s, start, lead);
    if here.Some? then here
    else if lead == 0 then None
    else TryLead(s, start, lead - 1)
  }

  /** The engine's attempt at one start position. */
  function MatchFrom(s: string, start: nat): (r: Option<Match>)
    requires start <= |s|
  {
    if start + 4 <= |s| && s[start..start + 4] == "url(" then
      TryLead(s, start, WsRun(s, start + 4))
    else None
  }

  /** `re.search(pattern, s, pos)`: tries the start positions pos, pos + 1, ... */
  function Search(s: string, pos: nat): (r: Option<Match>)
    requires pos <= |s|
    ensures r.Some? ==> pos <= r.value.start && r.value.End() <= |s|
    decreases |s| - pos
  {
    var here := MatchFrom(s, pos);
    MatchFromSound(s, pos);
    if here.Some? then here
    else if pos == |s| then None
    else Search(s, pos + 1)
  }

  /** The matches `re.finditer` yields from `pos` on, each search resuming at
      the end of the previous match (a match is never empty). */
  function MatchesFrom(s: string, pos: nat): (ms: seq<Match>)
    requires pos <= |s|
    decreases |s| - pos
  {
    match Search(s, pos)
    case None => []
    case Some(m) => [m] + MatchesFrom(s, m.End())
  }

  /** The text group 1 captured in match `m` (a match lies within `s`). */
  function Capture(s: string, m: Match): string {
    if m.End() <= |s| then s[m.CapStart()..m.CapEnd()] else []
  }

  /** The text group 1 captured in each of the matches `ms`, in order. */
  function CapturesOf(s: string, ms: seq<Match>): (gs: seq<string>)
    ensures |gs| == |ms|
  {
    if ms == [] then [] else [Capture(s, ms[0])] + CapturesOf(s, ms[1..])
  }

  /** The matches `re.finditer` yields over the whole of `s`: the sequence
      IsFinditer admits (there is one, and only one: MatchesFromSpec,
      FinditerUnique). */
  ghost function Finditer(s: string): seq<Match> {
    MatchesFromSpec(s, 0);
    var ms :| IsFinditer(s, 0, ms);
    ms
  }

  /** `[m.group(1) for m in re.finditer(r"url\(\s*.(.*).\s*\)", s)]`,
      as the engine computes it. */
  function UrlCaptures(s: string): seq<string> {
    CapturesOf(s, MatchesFrom(s, 0))
  }

  // ---------------------------------------------------------------------
  // The engine returns Python's match

  /** `r` is a match that is `m` or is tried before `m`. */
  predicate Dominates(r: Option<Match>, m: Match) {
    r.Some? && (m == r.value || Outranks(r.value, m))
  }

  /** In a match the prefix matches, the group is free of newlines and the
      tail succeeds with exactly the match's trail. */
  lemma TailOfMatch(s: string, m: Match)
    requires MatchAt(s, m)
    ensures LeadOk(s, m.start, m.lead) && NoNewline(s, m.CapStart(), m.CapEnd())
    ensures Tail(s, m.CapEnd()) == Some(m.trail)
  {
    assert !IsSpace(s[m.Close()]);
  }

  /** A tail that succeeds after a matching prefix and a newline-free group completes a match. */
  lemma MatchOfTail(s: string, start: nat, lead: nat, n: nat)
    requires LeadOk(s, start, lead) && start + 5 + lead + n <= |s|
    requires NoNewline(s, start + 5 + lead, start + 5 + lead + n)
    requires Tail(s, start + 5 + lead + n).Some?
    ensures MatchAt(s, Match(start, lead, n, Tail(s, start + 5 + lead + n).value))
  {
  }

  /** When the tail succeeds after a group of `n` characters, that match is
      the best one with this lead and a group of `n` characters. */
  lemma TailHit(s: string, start: nat, lead: nat, n: nat)
    requires LeadOk(s, start, lead) && start + 5 + lead + n <= |s|
    requires NoNewline(s, start + 5 + lead, start + 5 + lead + n)
    requires Tail(s, start + 5 + lead + n).Some?
    ensures var r := Some(Match(start, lead, n, Tail(s, start + 5 + lead + n).value));
      MatchAt(s, r.value) &&
      forall m: Match :: m.start == start && m.lead == lead && m.len == n && MatchAt(s, m) ==> Dominates(r, m)
  {
    MatchOfTail(s, start, lead, n);
    forall m: Match | m.start == start && m.lead == lead && m.len == n && MatchAt(s, m)
      ensures m.trail == Tail(s, start + 5 + lead + n).value
    {
      TailOfMatch(s, m);
    }
  }

  /** When the tail fails after a group of `n` characters, no match has this
      lead and a group of `n` characters. */
  lemma TailMiss(s: string, start: nat, lead: nat, n: nat)
    requires start + 5 + lead + n <= |s|
    requires Tail(s, start + 5 + lead + n).None?
    ensures forall m: Match :: m.start == start && m.lead == lead && m.len == n ==> !MatchAt(s, m)
  {
    forall m: Match | m.start == start && m.lead == lead && m.len == n
      ensures !MatchAt(s, m)
    {
      if MatchAt(s, m) {
        TailOfMatch(s, m);
      }
    }
  }

  /** Backtracking over the group finds the best match with this lead and a
      group of at most `n` characters. */
  lemma {:induction false} TryLenSpec(s: string, start: nat, lead: nat, n: nat)
    requires LeadOk(s, start, lead) && start + 5 + lead + n <= |s|
    requires NoNewline(s, start + 5 + lead, start + 5 + lead + n)
    ensures var r := TryLen(s, start, lead, n);
      (r.Some? ==> MatchAt(s, r.value) && r.value.start == start && r.value.lead == lead) &&
      forall m: Match :: m.start == start && m.lead == lead && m.len <= n && MatchAt(s, m) ==> Dominates(r, m)
    decreases n
  {
    if Tail(s, start + 5 + lead + n).Some? {
      TailHit(s, start, lead, n);
    } else {
      TailMiss(s, start, lead, n);
      if n > 0 {
        TryLenSpec(s, start, lead, n - 1);
      }
    }
  }

  /** No match has a group reaching the end of its line. */
  lemma GroupWithinLine(s: string, m: Match)
    requires MatchAt(s, m)
    ensures m.len < LineRun(s, m.CapStart())
  {
  }

  /** The attempt with exactly `lead` characters of leading whitespace: the
      group as long as the line allows, then shorter. */
  function LeadAttempt(s: string, start: nat, lead: nat): Option<Match>
    requires start + 4 + lead <= |s|
  {
    var p := start + 4 + lead;
    if p < |s| && s[p] != '\n' then TryLen(s, start, lead, LineRun(s, p + 1)) else None
  }

  /** No match has a newline, or the end of the text, where its lead ends. */
  lemma LeadBlocked(s: string, start: nat, lead: nat)
    requires start + 4 + lead <= |s|
    requires start + 4 + lead == |s| || s[start + 4 + lead] == '\n'
    ensures forall m: Match :: m.start == start && m.lead == lead ==> !MatchAt(s, m)
  {
    forall m: Match | m.start == start && m.lead == lead
      ensures !MatchAt(s, m)
    {
      assert m.CapStart() - 1 == start + 4 + lead;
    }
  }

  /** Every match with this lead has a group that fits before the end of the line. */
  lemma LeadLine(s: string, start: nat, lead: nat)
    requires start + 5 + lead <= |s|
    ensures forall m: Match :: m.start == start && m.lead == lead && MatchAt(s, m) ==>
      m.len <= LineRun(s, start + 5 + lead)
  {
    forall m: Match | m.start == start && m.lead == lead && MatchAt(s, m)
      ensures m.len <= LineRun(s, start + 5 + lead)
    {
      GroupWithinLine(s, m);
    }
  }

  /** That attempt finds the best match with exactly this lead. */
  lemma LeadAttemptSpec(s: string, start: nat, lead: nat)
    requires start + 4 + lead <= |s| && s[start..start + 4] == "url("
    requires AllSpace(s, start + 4, start + 4 + lead)
    ensures var r := LeadAttempt(s, start, lead);
      (r.Some? ==> MatchAt(s, r.value) && r.value.start == start && r.value.lead == lead) &&
      forall m: Match :: m.start == start && m.lead == lead && MatchAt(s, m) ==> Dominates(r, m)
  {
    var p := start + 4 + lead;
    if p < |s| && s[p] != '\n' {
      assert LeadOk(s, start, lead);
      TryLenSpec(s, start, lead, LineRun(s, p + 1));
      LeadLine(s, start, lead);
    } else {
      LeadBlocked(s, start, lead);
    }
  }

  /** Backtracking over the lead finds the best match with at most `lead`
      characters of leading whitespace. */
  lemma {:induction false} TryLeadSpec(s: string, start: nat, lead: nat)
    requires start + 4 + lead <= |s| && s[start..start + 4] == "url("
    requires AllSpace(s, start + 4, start + 4 + lead)
    ensures var r := TryLead(s, start, lead);
      (r.Some? ==> MatchAt(s, r.value) && r.value.start == start) &&
      forall m: Match :: m.start == start && m.lead <= lead && MatchAt(s, m) ==> Dominates(r, m)
    decreases lead
  {
    var here := LeadAttempt(s, start, lead);
    LeadAttemptSpec(s, start, lead);
    if here.None? && lead > 0 {
      TryLeadSpec(s, start, lead - 1);
    }
  }

  /** The engine's attempt at one position finds the best match starting there. */
  lemma MatchFromSpec(s: string, start: nat)
    requires start <= |s|
    ensures var r := MatchFrom(s, start);
      (r.Some? ==> MatchAt(s, r.value) && r.value.start == start) &&
      forall m: Match :: m.start == start && MatchAt(s, m) ==> Dominates(r, m)
  {
    if start + 4 <= |s| && s[start..start + 4] == "url(" {
      TryLeadSpec(s, start, WsRun(s, start + 4));
    }
  }

  /** The part of MatchFromSpec that Search needs for its own contract. */
  lemma MatchFromSound(s: string, start: nat)
    requires start <= |s|
    ensures MatchFrom(s, start).Some? ==>
      MatchFrom(s, start).value.start == start && MatchFrom(s, start).value.End() <= |s|
  {
    MatchFromSpec(s, start);
  }

  /** Search is `re.search`: the preferred match at the leftmost position that has one. */
  lemma {:induction false} SearchSpec(s: string, pos: nat)
    requires pos <= |s|
    ensures FirstMatch(s, pos, Search(s, pos))
    decreases |s| - pos
  {
    MatchFromSpec(s, pos);
    if MatchFrom(s, pos).None? && pos < |s| {
      SearchSpec(s, pos + 1);
    }
  }

  /** The two outcomes that FirstMatch allows are the same: it pins down the search result. */
  lemma FirstMatchUnique(s: string, pos: nat, r1: Option<Match>, r2: Option<Match>)
    requires FirstMatch(s, pos, r1) && FirstMatch(s, pos, r2)
    ensures r1 == r2
  {
    if r1.Some? && r2.Some? {
      var m1, m2 := r1.value, r2.value;
      assert m1.start == m2.start;
      assert !Outranks(m1, m2) && !Outranks(m2, m1);
    }
  }

  /** `ms` is the sequence of matches `re.finditer` yields when it scans from
      `pos`: the first match found from `pos`, then the rest found from its end. */
  ghost predicate IsFinditer(s: string, pos: nat, ms: seq<Match>)
    decreases |ms|
  {
    if ms == [] then FirstMatch(s, pos, None)
    else FirstMatch(s, pos, Some(ms[0])) && IsFinditer(s, ms[0].End(), ms[1..])
  }

  /** MatchesFrom yields exactly what `re.finditer` yields. */
  lemma {:induction false} MatchesFromSpec(s: string, pos: nat)
    requires pos <= |s|
    ensures IsFinditer(s, pos, MatchesFrom(s, pos))
    decreases |s| - pos
  {
    SearchSpec(s, pos);
    match Search(s, pos)
    case None =>
    case Some(m) =>
      MatchesFromSpec(s, m.End());
      assert MatchesFrom(s, pos)[1..] == MatchesFrom(s, m.End());
  }

  /** IsFinditer admits one sequence of matches only. */
  lemma {:induction false} FinditerUnique(s: string, pos: nat, a: seq<Match>, b: seq<Match>)
    requires IsFinditer(s, pos, a) && IsFinditer(s, pos, b)
    ensures a == b
    decreases |a|
  {
    if a == [] || b == [] {
      FirstMatchUnique(s, pos, if a == [] then None else Some(a[0]), if b == [] then None else Some(b[0]));
    } else {
      FirstMatchUnique(s, pos, Some(a[0]), Some(b[0]));
      FinditerUnique(s, a[0].End(), a[1..], b[1..]);
      assert a == [a[0]] + a[1..] && b == [b[0]] + b[1..];
    }
  }

  /** Finditer is the sequence of matches `re.finditer` yields. */
  lemma FinditerSpec(s: string)
    ensures IsFinditer(s, 0, Finditer(s))
  {
    MatchesFromSpec(s, 0);
  }

  /** Any sequence `re.finditer` may yield is Finditer. */
  lemma FinditerIs(s: string, ms: seq<Match>)
    requires IsFinditer(s, 0, ms)
    ensures Finditer(s) == ms
  {
    FinditerSpec(s);
    FinditerUnique(s, 0, Finditer(s), ms);
  }

  /** The engine computes Finditer. */
  lemma EngineIsFinditer(s: string)
    ensures MatchesFrom(s, 0) == Finditer(s)
  {
    MatchesFromSpec(s, 0);
    FinditerIs(s, MatchesFrom(s, 0));
  }

  /** Everything `re.finditer` yields is a match. */
  lemma {:induction false} FinditerMatches(s: string, pos: nat, ms: seq<Match>, k: nat)
    requires IsFinditer(s, pos, ms) && k < |ms|
    ensures MatchAt(s, ms[k])
    decreases k
  {
    if k > 0 {
      FinditerMatches(s, ms[0].End(), ms[1..], k - 1);
    }
  }

  /** Element `k` of the captures is the capture of match `k`. */
  lemma {:induction false} CapturesOfIndex(s: string, ms: seq<Match>, k: nat)
    requires k < |ms|
    ensures CapturesOf(s, ms)[k] == Capture(s, ms[k])
    decreases k
  {
    if k > 0 {
      CapturesOfIndex(s, ms[1..], k - 1);
    }
  }

  /** The captures of the matches `re.finditer` yields: each a match, each
      capture its group's text, free of newlines. */
  lemma CapturesOfMatches(s: string, ms: seq<Match>, k: nat)
    requires IsFinditer(s, 0, ms) && k < |ms|
    ensures MatchAt(s, ms[k])
    ensures CapturesOf(s, ms)[k] == s[ms[k].CapStart()..ms[k].CapEnd()]
    ensures '\n' !in CapturesOf(s, ms)[k]
  {
    FinditerMatches(s, 0, ms, k);
    CapturesOfIndex(s, ms, k);
    var c := CapturesOf(s, ms)[k];
    forall t | 0 <= t < |c| ensures c[t] != '\n' {
      assert c[t] == s[ms[k].CapStart() + t];
    }
  }

  /** What the captures are: one per match of `re.finditer`, in order, each the
      text strictly between the character dropped after `url(` and its lead and
      the character dropped before the trail and `)`; none contains a newline. */
  lemma CapturesAreGroups(s: string)
    ensures var ms := Finditer(s);
      |UrlCaptures(s)| == |ms| &&
      forall k | 0 <= k < |ms| ::
        MatchAt(s, ms[k]) &&
        UrlCaptures(s)[k] == s[ms[k].CapStart()..ms[k].CapEnd()] &&
        '\n' !in UrlCaptures(s)[k]
  {
    var ms := Finditer(s);
    FinditerSpec(s);
    EngineIsFinditer(s);
    forall k | 0 <= k < |ms|
      ensures MatchAt(s, ms[k])
      ensures CapturesOf(s, ms)[k] == s[ms[k].CapStart()..ms[k].CapEnd()]
      ensures '\n' !in CapturesOf(s, ms)[k]
    {
      CapturesOfMatches(s, ms, k);
    }
  }

  /** The shape of a text that holds a single reference: `url(` at `start`,
      whitespace up to `start + 4 + lead`, a character that is neither
      whitespace nor a newline, no newline up to `close`, a `)` at `close`,
      no `(` before `start` and neither `(` nor `)` after `close`. */
  predicate LoneReference(s: string, start: nat, lead: nat, close: nat) {
    start + 6 + lead <= close < |s| &&
    (forall k | 0 <= k < start :: s[k] != '(') &&
    s[start..start + 4] == "url(" &&
    AllSpace(s, start + 4, start + 4 + lead) &&
    !IsSpace(s[start + 4 + lead]) &&
    NoNewline(s, start + 4 + lead, close) &&
    s[close] == ')' &&
    (forall k | close < k < |s| :: s[k] != '(' && s[k] != ')')
  }

  /** Every match has `(` three characters after its start and `)` at its close. */
  lemma MatchParens(s: string, m: Match)
    requires MatchAt(s, m)
    ensures s[m.start + 3] == '(' && s[m.Close()] == ')'
  {
    assert s[m.start + 3] == s[m.start..m.start + 4][3];
  }

  /** In such a text nothing matches before `start`. */
  lemma LoneReferenceNoEarlier(s: string, start: nat, lead: nat, close: nat)
    requires LoneReference(s, start, lead, close)
    ensures forall m': Match :: m'.start < start ==> !MatchAt(s, m')
  {
    forall m': Match | m'.start < start && MatchAt(s, m') ensures false {
      MatchParens(s, m');
    }
  }

  /** In such a text no match at `start` outranks the one reaching `close`. */
  lemma LoneReferenceBest(s: string, start: nat, lead: nat, close: nat)
    requires LoneReference(s, start, lead, close)
    ensures forall m': Match :: Outranks(m', Match(start, lead, close - start - 6 - lead, 0)) ==> !MatchAt(s, m')
  {
    var m := Match(start, lead, close - start - 6 - lead, 0);
    forall m': Match | Outranks(m', m) && MatchAt(s, m') ensures false {
      MatchParens(s, m');
    }
  }

  /** In such a text the one match starts at `start` and reaches `close`. */
  lemma LoneReferenceFirst(s: string, start: nat, lead: nat, close: nat)
    requires LoneReference(s, start, lead, close)
    ensures FirstMatch(s, 0, Some(Match(start, lead, close - start - 6 - lead, 0)))
  {
    var m := Match(start, lead, close - start - 6 - lead, 0);
    assert m.Close() == close;
    assert MatchAt(s, m);
    LoneReferenceNoEarlier(s, start, lead, close);
    LoneReferenceBest(s, start, lead, close);
  }

  /** In such a text nothing matches after `close`. */
  lemma LoneReferenceLast(s: string, start: nat, lead: nat, close: nat)
    requires LoneReference(s, start, lead, close)
    ensures FirstMatch(s, close + 1, None)
  {
    forall m': Match | close + 1 <= m'.start && MatchAt(s, m') ensures false {
      MatchParens(s, m');
    }
  }

  /** A text with a single reference yields one capture: everything between the
      first character after the leading whitespace and the last character
      before `)`, whether or not those two characters are quotes. */
  lemma LoneReferenceCapture(s: string, start: nat, lead: nat, close: nat)
    requires LoneReference(s, start, lead, close)
    ensures UrlCaptures(s) == [s[start + 5 + lead..close - 1]]
  {
    var m := Match(start, lead, close - start - 6 - lead, 0);
    LoneReferenceFirst(s, start, lead, close);
    LoneReferenceLast(s, start, lead, close);
    assert [m][1..] == [];
    assert IsFinditer(s, 0, [m]);
    FinditerIs(s, [m]);
    EngineIsFinditer(s);
  }

  /** The same, for a text assembled from its parts: `pre`, `url(`, the
      whitespace `ws`, the dropped character `c1`, the capture `g`, the dropped
      character `c2`, `)` and `post`. */
  lemma SingleReference(pre: string, ws: string, c1: char, g: string, c2: char, post: string)
    requires forall k | 0 <= k < |pre| :: pre[k] != '('
    requires forall k | 0 <= k < |ws| :: IsSpace(ws[k])
    requires !IsSpace(c1) && c1 != '\n' && c2 != '\n'
    requires forall k | 0 <= k < |g| :: g[k] != '\n'
    requires forall k | 0 <= k < |post| :: post[k] != '(' && post[k] != ')'
    ensures UrlCaptures(pre + "url(" + ws + [c1] + g + [c2] + ")" + post) == [g]
  {
    var s := pre + "url(" + ws + [c1] + g + [c2] + ")" + post;
    var start, lead := |pre|, |ws|;
    var close := start + 6 + lead + |g|;
    AssembledReference(pre, ws, c1, g, c2, post);
    LoneReferenceCapture(s, start, lead, close);
    assert s[start + 5 + lead..close - 1] == g;
  }

  /** The assembled text has the shape of a single reference. */
  lemma AssembledReference(pre: string, ws: string, c1: char, g: string, c2: char, post: string)
    requires forall k | 0 <= k < |pre| :: pre[k] != '('
    requires forall k | 0 <= k < |ws| :: IsSpace(ws[k])
    requires !IsSpace(c1) && c1 != '\n' && c2 != '\n'
    requires forall k | 0 <= k < |g| :: g[k] != '\n'
    requires forall k | 0 <= k < |post| :: post[k] != '(' && post[k] != ')'
    ensures LoneReference(pre + "url(" + ws + [c1] + g + [c2] + ")" + post, |pre|, |ws|, |pre| + 6 + |ws| + |g|)
  {
    var s := pre + "url(" + ws + [c1] + g + [c2] + ")" + post;
    var start, lead := |pre|, |ws|;
    var close := start + 6 + lead + |g|;
    assert s[start..start + 4] == "url(";
    assert forall k | 0 <= k < start :: s[k] == pre[k];
    assert forall k | start + 4 <= k < start + 4 + lead :: s[k] == ws[k - start - 4];
    assert forall k | start + 5 + lead <= k < close - 1 :: s[k] == g[k - start - 5 - lead];
    assert forall k | close < k < |s| :: s[k] == post[k - close - 1];
  }

  // ---------------------------------------------------------------------
  // What the pattern captures in the stylesheets of the test suite

  /** A quoted reference loses its quotes. */
  lemma QuotedReference(css: string)
    requires css == ".x{background:url('x.jpg')};"
    ensures UrlCaptures(css) == ["x.jpg"]
  {
    var pre, g, post := ".x{background:", "x.jpg", "};";
    assert pre + "url(" + "" + ['\''] + g + ['\''] + ")" + post == css;
    SingleReference(pre, "", '\'', g, '\'', post);
  }

  /** With whitespace inside the parentheses, the whitespace before `)` is not
      trailing whitespace of the pattern: the group keeps the closing quote and
      one space, and only the last space is dropped. */
  lemma SpacedReference(css: string)
    requires css == ".x{background:url(  \"x.jpg\"  )};"
    ensures UrlCaptures(css) == ["x.jpg\" "]
  {
    var pre, ws, g, post := ".x{background:", "  ", "x.jpg\" ", "};";
    assert pre + "url(" + ws + ['"'] + g + [' '] + ")" + post == css;
    SingleReference(pre, ws, '"', g, ' ', post);
  }

  /** A `<style>` element's markup: the tags do not disturb the capture. */
  lemma EmbeddedReference(css: string)
    requires css == "<style>.x{background:url(\"x.jpg\")};</style>"
    ensures UrlCaptures(css) == ["x.jpg"]
  {
    var pre, g, post := "<style>.x{background:", "x.jpg", "};</style>";
    assert pre + "url(" + "" + ['"'] + g + ['"'] + ")" + post == css;
    SingleReference(pre, "", '"', g, '"', post);
  }

  /** An unquoted reference loses its first and last characters. */
  lemma UnquotedReference(css: string)
    requires css == "url(img.png)"
    ensures UrlCaptures(css) == ["mg.pn"]
  {
    var g := "mg.pn";
    assert "" + "url(" + "" + ['i'] + g + ['g'] + ")" + "" == css;
    SingleReference("", "", 'i', g, 'g', "");
  }

  /** Two references on one line are one greedy match, from the first `url(`
      to the last `)`. */
  lemma GreedyOverTwoReferences(css: string)
    requires css == "url('a') url('b')"
    ensures UrlCaptures(css) == ["a') url('b"]
  {
    var g := "a') url('b";
    assert "" + "url(" + "" + ['\''] + g + ['\''] + ")" + "" == css;
    SingleReference("", "", '\'', g, '\'', "");
  }

  // ---------------------------------------------------------------------
  // The scanning loop

  /** `LinkCheckerBot._find_all_links_in_css`: one link per match of the
      pattern, in the order `re.finditer` yields them. */
  method FindAllLinksInCss(content: string) returns (links: seq<string>)
    ensures links == UrlCaptures(content)
  {
    links := [];
    var pos := 0;
    var found := Search(content, pos);
    while found.Some?
      invariant pos <= |content|
      invariant found == Search(content, pos)
      invariant links + CapturesOf(content, MatchesFrom(content, pos)) == UrlCaptures(content)
      decreases |content| - pos
    {
      var m := found.value;
      ghost var rest := MatchesFrom(content, m.End());
      assert MatchesFrom(content, pos) == [m] + rest;
      assert ([m] + rest)[1..] == rest;
      links := links + [content[m.CapStart()..m.CapEnd()]];
      pos := m.End();
      found := Search(content, pos);
    }
  }
}
