/** Recovery from the operation log: which `pre:` lines were never closed by a `done:` line, and the ids on them. */
module RecoveryLog {
  import opened Words

  predicate Contains(s: string, p: string)
    decreases |s|
  {
    p <= s || (s != [] && Contains(s[1..], p))
  }

  /** `std::string::find` succeeds exactly when the pattern occurs somewhere. */
  lemma {:induction false} ContainsMeans(s: string, p: string)
    ensures Contains(s, p) <==> exists i :: 0 <= i <= |s| && p <= s[i..]
    decreases |s|
  {
    assert s[0..] == s;
    if s != [] {
      ContainsMeans(s[1..], p);
      assert forall i :: 0 <= i <= |s[1..]| ==> s[1..][i..] == s[i + 1..];
      if i :| 0 <= i <= |s| && p <= s[i..] && i > 0 { assert p <= s[1..][i - 1..]; }
      if i :| 0 <= i <= |s[1..]| && p <= s[1..][i..] { assert p <= s[i + 1..]; }
    }
  }

  predicate Opens(line: string) {
    Contains(line, "pre:")
  }

  predicate Closes(line: string) {
    Contains(line, "done:")
  }

  // ---------------------------------------------------------------- bracket matching

  /** The stack of line numbers after the first `n` lines; a line that both opens and closes leaves it alone. */
  function Stack(lines: seq<string>, n: nat): (r: seq<nat>)
    requires n <= |lines| && WellBracketed(lines, n)
    ensures |r| == Depth(lines, n) && forall k :: 0 <= k < |r| ==> r[k] < n
  {
    if n == 0 then []
    else
      assert Depth(lines, n) >= 0 && Depth(lines, n) == Depth(lines, n - 1) + Weight(lines[n - 1]);
      var before := Stack(lines, n - 1);
      var pushed := if Opens(lines[n - 1]) then before + [n - 1] else before;
      if Closes(lines[n - 1]) then pushed[..|pushed| - 1] else pushed
  }

  function Weight(line: string): int {
    (if Opens(line) then 1 else 0) - (if Closes(line) then 1 else 0)
  }

  function Depth(lines: seq<string>, n: nat): int
    requires n <= |lines|
  {
    if n == 0 then 0 else Depth(lines, n - 1) + Weight(lines[n - 1])
  }

  /** No `done:` line comes without an open `pre:` line. */
  predicate WellBracketed(lines: seq<string>, n: nat)
    requires n <= |lines|
  {
    forall i :: 0 <= i <= n ==> Depth(lines, i) >= 0
  }

  /** Reference definition: line `i` opens a bracket that no later line among the first `n` closes. */
  ghost predicate StaysOpen(lines: seq<string>, n: nat, i: nat)
    requires n <= |lines|
  {
    i < n && forall j :: i < j <= n ==> Depth(lines, j) > Depth(lines, i)
  }

  /** The k-th line on the stack is where the depth rose above k for the last time. */
  ghost predicate StackShape(lines: seq<string>, n: nat, stack: seq<nat>)
    requires n <= |lines|
  {
    && (forall k :: 0 <= k < |stack| ==> StaysOpen(lines, n, stack[k]) && Depth(lines, stack[k]) == k)
    && (forall k, l :: 0 <= k < l < |stack| ==> stack[k] < stack[l])
  }

  lemma WeightRange(line: string)
    ensures -1 <= Weight(line) <= 1
  {
  }

  /** One line changes only the top of the stack. */
  lemma {:induction false} StackNext(lines: seq<string>, n: nat)
    requires 0 < n <= |lines| && WellBracketed(lines, n)
    ensures var before, after := Stack(lines, n - 1), Stack(lines, n);
            && |after| == |before| + Weight(lines[n - 1])
            && (forall k :: 0 <= k < |after| && k < |before| ==> after[k] == before[k])
            && (|after| > |before| ==> after[|before|] == n - 1)
  {
  }

  lemma {:induction false} StackHasShape(lines: seq<string>, n: nat)
    requires n <= |lines| && WellBracketed(lines, n)
    ensures StackShape(lines, n, Stack(lines, n))
  {
    if n > 0 {
      StackHasShape(lines, n - 1);
      StackNext(lines, n);
      WeightRange(lines[n - 1]);
      ShapeNext(lines, n, Stack(lines, n - 1), Stack(lines, n));
    }
  }

  lemma {:induction false} ShapeNext(lines: seq<string>, n: nat, before: seq<nat>, after: seq<nat>)
    requires 0 < n <= |lines| && StackShape(lines, n - 1, before) && |before| == Depth(lines, n - 1)
    requires |after| == Depth(lines, n) && -1 <= Weight(lines[n - 1]) <= 1
    requires forall k :: 0 <= k < |after| && k < |before| ==> after[k] == before[k]
    requires |after| > |before| ==> after[|before|] == n - 1
    ensures StackShape(lines, n, after)
  {
    assert Depth(lines, n) == Depth(lines, n - 1) + Weight(lines[n - 1]);
    forall k | 0 <= k < |after| ensures StaysOpen(lines, n, after[k]) && Depth(lines, after[k]) == k {
      if k < |before| { assert StaysOpen(lines, n - 1, before[k]); }
    }
  }

  /** A line that stays open is on the stack: the depth just before it names its place. */
  lemma OpenLineOnStack(lines: seq<string>, n: nat, i: nat)
    requires n <= |lines| && WellBracketed(lines, n) && StaysOpen(lines, n, i)
    ensures Depth(lines, i) < |Stack(lines, n)| && Stack(lines, n)[Depth(lines, i)] == i
  {
    StackHasShape(lines, n);
    var stack, k := Stack(lines, n), Depth(lines, i);
    assert Depth(lines, n) > k;
    assert StaysOpen(lines, n, stack[k]) && Depth(lines, stack[k]) == k;
    assert !(stack[k] < i) && !(i < stack[k]);
  }

  /** The stack holds exactly the lines that stay open, in log order. */
  lemma StackIsOpenLines(lines: seq<string>)
    requires WellBracketed(lines, |lines|)
    ensures var stack := Stack(lines, |lines|);
            && (forall i: nat :: i in stack <==> StaysOpen(lines, |lines|, i))
            && forall k, l :: 0 <= k < l < |stack| ==> stack[k] < stack[l]
  {
    StackHasShape(lines, |lines|);
    forall i: nat ensures i in Stack(lines, |lines|) <==> StaysOpen(lines, |lines|, i) {
      if StaysOpen(lines, |lines|, i) { OpenLineOnStack(lines, |lines|, i); }
    }
  }

  // ---------------------------------------------------------------- the ids on a line

  /** The text before the first space and the text after it. */
  function CutAtSpace(s: string): (r: Option<(string, string)>)
    ensures r.Some? ==> |r.value.1| < |s|
  {
    if s == [] then None
    else if s[0] == ' ' then Some(("", s[1..]))
    else
      match CutAtSpace(s[1..])
      case None => None
      case Some((w, rest)) => Some(([s[0]] + w, rest))
  }

  /** The words of `s` that a space ends. */
  function Tokens(s: string): seq<string>
    decreases |s|
  {
    match CutAtSpace(s)
    case None => []
    case Some((w, rest)) => [w] + Tokens(rest)
  }

  /** The texts between consecutive spaces of a line. */
  function IdsOn(line: string): seq<string> {
    match CutAtSpace(line)
    case None => []
    case Some((_, rest)) => Tokens(rest)
  }

  function CountSpaces(s: string): nat {
    if s == [] then 0 else (if s[0] == ' ' then 1 else 0) + CountSpaces(s[1..])
  }

  /** Each id followed by a space, as the writer prints them. */
  function Spaced(ids: seq<string>): string {
    if ids == [] then [] else ids[0] + (" " + Spaced(ids[1..]))
  }

  lemma {:induction false} CutAfterWord(w: string, rest: string)
    requires ' ' !in w
    ensures CutAtSpace(w + (" " + rest)) == Some((w, rest))
    ensures CountSpaces(w + (" " + rest)) == 1 + CountSpaces(rest)
    decreases |w|
  {
    var s := w + (" " + rest);
    if w == [] {
      assert s == " " + rest && s[1..] == rest;
    } else {
      assert w[0] in w && s[0] == w[0] && s[1..] == w[1..] + (" " + rest);
      CutAfterWord(w[1..], rest);
      assert [w[0]] + w[1..] == w;
    }
  }

  lemma {:induction false} TokensRoundTrip(ids: seq<string>)
    requires forall id <- ids :: ' ' !in id
    ensures Tokens(Spaced(ids)) == ids && CountSpaces(Spaced(ids)) == |ids|
  {
    if ids != [] {
      CutAfterWord(ids[0], Spaced(ids[1..]));
      TokensRoundTrip(ids[1..]);
      assert ids == [ids[0]] + ids[1..];
    }
  }

  const EXPIRE := "pre:EXPIRE"

  /** The line the writer prints for a batch of ids. */
  function ExpireLine(ids: seq<string>): string {
    EXPIRE + (" " + Spaced(ids))
  }

  /** A written line gives its ids back, and has one separator more than ids, so nine ids fit the ten recorded
      positions. */
  lemma ExpireLineRoundTrip(ids: seq<string>)
    requires forall id <- ids :: ' ' !in id
    ensures IdsOn(ExpireLine(ids)) == ids && CountSpaces(ExpireLine(ids)) == |ids| + 1
  {
    CutAfterWord(EXPIRE, Spaced(ids));
    TokensRoundTrip(ids);
  }

  // ---------------------------------------------------------------- Restore

  /** The ids of the unmatched expire lines among the lowest `n` stack entries, newest line first. */
  function Recovered(lines: seq<string>, stack: seq<nat>): seq<string>
    requires forall k :: 0 <= k < |stack| ==> stack[k] < |lines|
  {
    if stack == [] then []
    else
      var line := lines[stack[|stack| - 1]];
      (if Contains(line, EXPIRE) then IdsOn(line) else []) + Recovered(lines, stack[..|stack| - 1])
  }

  const RECORDED: nat := 10

  /** The first space at or after `from` is at `i`. */
  ghost predicate EndsWord(s: string, from: nat, i: nat) {
    from <= i < |s| && s[i] == ' ' && forall j :: from <= j < i ==> s[j] != ' '
  }

  ghost predicate NoSpaceFrom(s: string, from: nat) {
    forall j :: from <= j < |s| ==> s[j] != ' '
  }

  lemma {:induction false} CutMeans(s: string, from: nat, i: nat)
    requires EndsWord(s, from, i)
    ensures CutAtSpace(s[from..]) == Some((s[from..i], s[i + 1..]))
    decreases i - from
  {
    var t := s[from..];
    assert t[0] == s[from] && t[1..] == s[from + 1..];
    if from == i {
      assert s[from..i] == "";
    } else {
      CutMeans(s, from + 1, i);
      assert s[from..i] == [s[from]] + s[from + 1..i];
    }
  }

  lemma {:induction false} CountMeans(s: string, from: nat, i: nat)
    requires EndsWord(s, from, i)
    ensures CountSpaces(s[from..]) == 1 + CountSpaces(s[i + 1..])
    decreases i - from
  {
    var t := s[from..];
    assert t[0] == s[from] && t[1..] == s[from + 1..];
    if from < i { CountMeans(s, from + 1, i); }
  }

  lemma {:induction false} NoCut(s: string, from: nat)
    requires from <= |s| && NoSpaceFrom(s, from)
    ensures CutAtSpace(s[from..]) == None
    decreases |s| - from
  {
    var t := s[from..];
    if from < |s| {
      assert t[0] == s[from] && t[1..] == s[from + 1..];
      NoCut(s, from + 1);
    }
  }

  /** `std::string::find`; the length of the string stands for `npos`. */
  method FindSpace(s: string, from: nat) returns (i: nat)
    requires from <= |s|
    ensures i == |s| ==> NoSpaceFrom(s, from)
    ensures i != |s| ==> EndsWord(s, from, i)
  {
    i := from;
    while i < |s| && s[i] != ' '
      invariant from <= i <= |s| && forall j :: from <= j < i ==> s[j] != ' '
    {
      i := i + 1;
    }
  }

  /** Where the search after the first `m` recorded separators starts. */
  function After(ps: seq<nat>, m: nat): nat
    requires m <= |ps|
  {
    if m == 0 then 0 else ps[m - 1] + 1
  }

  /** Each recorded position ends the word that starts after the previous one. */
  ghost predicate Recorded(line: string, ps: seq<nat>) {
    forall m :: 0 <= m < |ps| ==> EndsWord(line, After(ps, m), ps[m])
  }

  lemma AfterSnoc(ps: seq<nat>, i: nat, m: nat)
    requires m <= |ps|
    ensures After(ps + [i], m) == After(ps, m)
  {
  }

  lemma RecordedSnoc(line: string, ps: seq<nat>, i: nat)
    requires Recorded(line, ps) && EndsWord(line, After(ps, |ps|), i)
    ensures Recorded(line, ps + [i]) && After(ps + [i], |ps| + 1) == i + 1
  {
    var qs := ps + [i];
    forall m | 0 <= m < |qs| ensures EndsWord(line, After(qs, m), qs[m]) {
      AfterSnoc(ps, i, m);
      if m < |ps| { assert EndsWord(line, After(ps, m), ps[m]) && qs[m] == ps[m]; }
    }
  }

  /** Records the positions of the separators of one line in ten slots. */
  method Separators(line: string) returns (a: array<nat>, j: nat)
    requires CountSpaces(line) <= RECORDED
    ensures fresh(a) && j <= a.Length && Recorded(line, a[..j])
    ensures After(a[..j], j) <= |line| && NoSpaceFrom(line, After(a[..j], j))
  {
    a := new nat[RECORDED];
    j := 0;
    assert line[0..] == line;
    var i := FindSpace(line, 0);
    ghost var ps: seq<nat>, from := [], 0;
    while i != |line|
      invariant j <= a.Length == RECORDED && ps == a[..j] && Recorded(line, ps) && from == After(ps, j) <= |line|
      invariant j + CountSpaces(line[from..]) <= RECORDED
      invariant i == |line| ==> NoSpaceFrom(line, from)
      invariant i != |line| ==> EndsWord(line, from, i)
      decreases |line| - from
    {
      CountMeans(line, from, i);
      RecordedSnoc(line, ps, i);
      a[j] := i;
      assert a[..j + 1] == ps + [i];
      ps, from, j := ps + [i], i + 1, j + 1;
      i := FindSpace(line, i + 1);
    }
  }

  lemma {:induction false} TokensStep(line: string, ps: seq<nat>, m: nat)
    requires Recorded(line, ps) && 0 < m < |ps|
    ensures After(ps, m) <= ps[m] < |line|
    ensures Tokens(line[After(ps, m)..]) == [line[After(ps, m)..ps[m]]] + Tokens(line[After(ps, m + 1)..])
  {
    assert EndsWord(line, After(ps, m), ps[m]);
    CutMeans(line, After(ps, m), ps[m]);
  }

  lemma {:induction false} TokensEnd(line: string, ps: seq<nat>)
    requires Recorded(line, ps) && After(ps, |ps|) <= |line| && NoSpaceFrom(line, After(ps, |ps|))
    ensures ps == [] ==> IdsOn(line) == []
    ensures ps != [] ==>
        After(ps, 1) <= |line| && IdsOn(line) == Tokens(line[After(ps, 1)..]) &&
        Tokens(line[After(ps, |ps|)..]) == []
  {
    assert line[0..] == line;
    NoCut(line, After(ps, |ps|));
    if ps != [] {
      assert EndsWord(line, After(ps, 0), ps[0]);
      CutMeans(line, 0, ps[0]);
    }
  }

  /** The words between the separators from the m-th on. */
  function WordsBetween(line: string, ps: seq<nat>, m: nat): seq<string>
    requires 0 < m <= |ps| && forall k :: m <= k < |ps| ==> After(ps, k) <= ps[k] <= |line|
    decreases |ps| - m
  {
    if m == |ps| then [] else [line[After(ps, m)..ps[m]]] + WordsBetween(line, ps, m + 1)
  }

  lemma {:induction false} TokensAreWords(line: string, ps: seq<nat>, m: nat)
    requires Recorded(line, ps) && 0 < m <= |ps| && After(ps, |ps|) <= |line| && NoSpaceFrom(line, After(ps, |ps|))
    ensures forall k :: m <= k < |ps| ==> After(ps, k) <= ps[k] <= |line|
    ensures After(ps, m) <= |line| && Tokens(line[After(ps, m)..]) == WordsBetween(line, ps, m)
    decreases |ps| - m
  {
    assert forall k :: m <= k < |ps| ==> EndsWord(line, After(ps, k), ps[k]);
    if m == |ps| {
      TokensEnd(line, ps);
    } else {
      TokensStep(line, ps, m);
      TokensAreWords(line, ps, m + 1);
    }
  }

  /** Pushes the ids between the separators. */
  method PushIds(line: string, openIds: seq<string>) returns (r: seq<string>)
    requires CountSpaces(line) <= RECORDED
    ensures r == openIds + IdsOn(line)
  {
    var a, j := Separators(line);
    var ps := a[..j];
    TokensEnd(line, ps);
    r := openIds;
    if j == 0 { return; }
    TokensAreWords(line, ps, 1);
    r := PushWords(line, ps, openIds);
  }

  method PushWords(line: string, ps: seq<nat>, openIds: seq<string>) returns (r: seq<string>)
    requires ps != [] && forall k :: 1 <= k < |ps| ==> After(ps, k) <= ps[k] <= |line|
    ensures r == openIds + WordsBetween(line, ps, 1)
  {
    r := openIds;
    for m := 0 to |ps| - 1
      invariant r + WordsBetween(line, ps, m + 1) == openIds + WordsBetween(line, ps, 1)
    {
      var id := line[ps[m] + 1..ps[m + 1]];
      Associate(r, [id], WordsBetween(line, ps, m + 2));
      r := r + [id];
    }
  }

  /** The first loop: pushes opening lines and pops at closing ones. */
  method OpenLines(lines: seq<string>) returns (stack: seq<nat>)
    requires WellBracketed(lines, |lines|)
    ensures stack == Stack(lines, |lines|)
  {
    stack := [];
    for n := 0 to |lines|
      invariant stack == Stack(lines, n)
    {
      assert Depth(lines, n + 1) >= 0;
      if Opens(lines[n]) { stack := stack + [n]; }
      if Closes(lines[n]) { stack := stack[..|stack| - 1]; }
    }
  }

  predicate WithinRecorded(lines: seq<string>) {
    forall i :: 0 <= i < |lines| && Contains(lines[i], EXPIRE) ==> CountSpaces(lines[i]) <= RECORDED
  }

  /** The second loop: pops the stack and pushes the ids of each expire line. */
  method PopIds(lines: seq<string>, full: seq<nat>) returns (openIds: seq<string>)
    requires (forall k :: 0 <= k < |full| ==> full[k] < |lines|) && WithinRecorded(lines)
    ensures openIds == Recovered(lines, full)
  {
    openIds := [];
    var n := |full|;
    assert full[..n] == full;
    while n > 0
      invariant n <= |full| && openIds + Recovered(lines, full[..n]) == Recovered(lines, full)
    {
      var top := lines[full[n - 1]];
      ghost var rest := full[..n - 1];
      assert full[..n][..n - 1] == rest;
      if Contains(top, EXPIRE) {
        Associate(openIds, IdsOn(top), Recovered(lines, rest));
        openIds := PushIds(top, openIds);
      }
      n := n - 1;
    }
  }

  /** Recovers the ids of the expire lines that stay open, newest line first. */
  method Restore(lines: seq<string>) returns (openIds: seq<string>)
    requires WellBracketed(lines, |lines|) && WithinRecorded(lines)
    ensures openIds == Recovered(lines, Stack(lines, |lines|))
  {
    var stack := OpenLines(lines);
    openIds := PopIds(lines, stack);
  }

  // ---------------------------------------------------------------- a written log

  /** What the program prints: the two kinds of opening and closing lines, and anything else. */
  datatype LogLine = PreExpire(ids: seq<string>) | DoneExpire | PreSync | DoneSync | Noise(text: string)

  function Text(l: LogLine): string {
    match l
    case PreExpire(ids) => ExpireLine(ids)
    case DoneExpire => "done:EXPIRE"
    case PreSync => "pre:sync"
    case DoneSync => "done:sync"
    case Noise(t) => t
  }

  /** Ids are words without a closing mark, at most nine on a line; other lines carry no mark. */
  predicate Writable(l: LogLine) {
    match l
    case PreExpire(ids) => |ids| < RECORDED && forall id <- ids :: ' ' !in id && !Closes(id)
    case Noise(t) => !Opens(t) && !Closes(t)
    case _ => true
  }

  lemma {:induction false} ContainsChar(s: string, p: string, c: char)
    requires Contains(s, p) && c in p
    ensures c in s
  {
    if !(p <= s) { ContainsChar(s[1..], p, c); }
  }

  /** A word without spaces lies on one side of a space. */
  lemma {:induction false} ContainsSplit(a: string, b: string, p: string)
    requires p != "" && ' ' !in p
    ensures Contains(a + (" " + b), p) <==> Contains(a, p) || Contains(b, p)
    decreases |a|
  {
    var s := a + (" " + b);
    if a == [] {
      assert s[0] == ' ' && s[1..] == b && p[0] in p;
    } else {
      assert s[1..] == a[1..] + (" " + b);
      ContainsSplit(a[1..], b, p);
      assert s[|a|] == ' ' && (|p| > |a| ==> p[|a|] in p);
    }
  }

  lemma {:induction false} SpacedCloses(ids: seq<string>)
    requires forall id <- ids :: !Closes(id)
    ensures !Closes(Spaced(ids))
  {
    if ids != [] {
      assert ids[0] in ids;
      SpacedCloses(ids[1..]);
      ContainsSplit(ids[0], Spaced(ids[1..]), "done:");
    }
  }

  lemma ExpireLineMarks(ids: seq<string>)
    requires Writable(PreExpire(ids))
    ensures var t := ExpireLine(ids);
            Opens(t) && !Closes(t) && Contains(t, EXPIRE) && CountSpaces(t) <= RECORDED && IdsOn(t) == ids
  {
    assert "pre:" <= ExpireLine(ids) && EXPIRE <= ExpireLine(ids);
    ExpireLineRoundTrip(ids);
    SpacedCloses(ids);
    ContainsSplit(EXPIRE, Spaced(ids), "done:");
    if Closes(EXPIRE) { ContainsChar(EXPIRE, "done:", 'd'); }
  }

  lemma SyncMarks()
    ensures Opens("pre:sync") && !Closes("pre:sync") && !Contains("pre:sync", EXPIRE)
  {
    assert "pre:" <= "pre:sync";
    if Closes("pre:sync") { ContainsChar("pre:sync", "done:", 'd'); }
    if Contains("pre:sync", EXPIRE) { ContainsChar("pre:sync", EXPIRE, 'E'); }
  }

  lemma DoneMarks(what: string)
    requires what == "EXPIRE" || what == "sync"
    ensures !Opens("done:" + what) && Closes("done:" + what)
  {
    assert "done:" <= "done:" + what;
    if Opens("done:" + what) { ContainsChar("done:" + what, "pre:", 'p'); }
  }

  /** Written lines carry exactly the marks they mean, and their separators fit the recorded positions. */
  lemma LineMarks(l: LogLine)
    requires Writable(l)
    ensures Opens(Text(l)) <==> l.PreExpire? || l.PreSync?
    ensures Closes(Text(l)) <==> l.DoneExpire? || l.DoneSync?
    ensures Opens(Text(l)) ==> (Contains(Text(l), EXPIRE) <==> l.PreExpire?)
    ensures l.PreExpire? ==> CountSpaces(Text(l)) <= RECORDED && IdsOn(Text(l)) == l.ids
  {
    match l
    case PreExpire(ids) => ExpireLineMarks(ids);
    case DoneExpire => DoneMarks("EXPIRE"); assert Text(l) == "done:" + "EXPIRE";
    case PreSync => SyncMarks();
    case DoneSync => DoneMarks("sync"); assert Text(l) == "done:" + "sync";
    case Noise(_) =>
  }

  function Texts(log: seq<LogLine>): (r: seq<string>)
    ensures |r| == |log| && forall i :: 0 <= i < |log| ==> r[i] == Text(log[i])
  {
    seq(|log|, i requires 0 <= i < |log| => Text(log[i]))
  }

  predicate AllWritable(log: seq<LogLine>) {
    forall i :: 0 <= i < |log| ==> Writable(log[i])
  }

  /** Reference: the id lists of the batches opened and not closed after the first `n` lines, oldest first
      (an empty list for a sync); `None` when a line closes nothing. */
  function Batches(log: seq<LogLine>, n: nat): Option<seq<seq<string>>>
    requires n <= |log|
  {
    if n == 0 then Some([])
    else
      match Batches(log, n - 1)
      case None => None
      case Some(open) =>
        match log[n - 1]
        case PreExpire(ids) => Some(open + [ids])
        case PreSync => Some(open + [[]])
        case Noise(_) => Some(open)
        case _ => if open == [] then None else Some(open[..|open| - 1])
  }

  function NewestFirst(batches: seq<seq<string>>): seq<string> {
    if batches == [] then [] else batches[|batches| - 1] + NewestFirst(batches[..|batches| - 1])
  }

  function IdsOf(l: LogLine): seq<string> {
    if l.PreExpire? then l.ids else []
  }

  /** The stack of line numbers and the reference agree. */
  ghost predicate SameStack(log: seq<LogLine>, stack: seq<nat>, open: seq<seq<string>>) {
    |stack| == |open| && forall k :: 0 <= k < |stack| ==>
      stack[k] < |log| && Opens(Text(log[stack[k]])) && open[k] == IdsOf(log[stack[k]])
  }

  lemma {:induction false} StackIsBatches(log: seq<LogLine>, n: nat)
    requires n <= |log| && AllWritable(log) && Batches(log, n).Some?
    ensures WellBracketed(Texts(log), n) && SameStack(log, Stack(Texts(log), n), Batches(log, n).value)
  {
    if n > 0 {
      var lines := Texts(log);
      StackIsBatches(log, n - 1);
      var before := Stack(lines, n - 1);
      LineMarks(log[n - 1]);
      assert lines[n - 1] == Text(log[n - 1]);
      DepthStep(lines, n, |before|);
    }
  }

  lemma DepthStep(lines: seq<string>, n: nat, depth: nat)
    requires 0 < n <= |lines| && WellBracketed(lines, n - 1) && Depth(lines, n - 1) == depth
    requires depth + Weight(lines[n - 1]) >= 0
    ensures WellBracketed(lines, n)
  {
  }

  lemma {:induction false} RecoveredIsNewestFirst(log: seq<LogLine>, stack: seq<nat>, open: seq<seq<string>>)
    requires AllWritable(log) && SameStack(log, stack, open)
    ensures Recovered(Texts(log), stack) == NewestFirst(open)
    decreases |stack|
  {
    if stack != [] {
      LineMarks(log[stack[|stack| - 1]]);
      RecoveredIsNewestFirst(log, stack[..|stack| - 1], open[..|open| - 1]);
    }
  }

  /** Round trip: restoring a written log returns the ids of the batches that were opened and not closed, newest
      first. */
  method RestoreWritten(log: seq<LogLine>) returns (openIds: seq<string>)
    requires AllWritable(log) && Batches(log, |log|).Some?
    ensures openIds == NewestFirst(Batches(log, |log|).value)
  {
    var lines := Texts(log);
    StackIsBatches(log, |log|);
    RecoveredIsNewestFirst(log, Stack(lines, |log|), Batches(log, |log|).value);
    forall i | 0 <= i < |lines| && Contains(lines[i], EXPIRE) ensures CountSpaces(lines[i]) <= RECORDED {
      ExpireOpens(lines[i]);
      LineMarks(log[i]);
    }
    openIds := Restore(lines);
  }

  lemma {:induction false} ExpireOpens(s: string)
    requires Contains(s, EXPIRE)
    ensures Opens(s)
  {
    if EXPIRE <= s { assert "pre:" <= s; } else { ExpireOpens(s[1..]); }
  }
}
