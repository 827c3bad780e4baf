/**
 * A reader for the lines `displayActivity` prints. It recovers from a
 * line what the line template shows of its event: the kind of event, the
 * repository, the commit count of a push and the (capitalised) action of an
 * issue. Its round-trip lemma is what pins the four templates down.
 *
 * The reading is unambiguous when repository names and issue actions hold no
 * space, as GitHub's `owner/name` repository names and its issue actions
 * (`opened`, `closed`, ...) do not.
 */
module LineFormat {
  import opened Wrappers
  import opened Decimal
  import opened Activity

  /** What one printed line says about its event. */
  datatype LineView =
    | Pushed(count: nat, repo: string)
    | IssueLine(verb: string, repo: string)
    | Starred(repo: string)
    | Forked(repo: string)

  /** What the line of `e` should say: None for an event that prints no line. */
  function View(e: Event): Option<LineView> {
    match e
    case Push(repo, commits) => Some(Pushed(|commits|, repo))
    case Issues(repo, action) => Some(IssueLine(Capitalize(action), repo))
    case Watch(repo) => Some(Starred(repo))
    case Fork(repo) => Some(Forked(repo))
    case Other(_, _) => None
  }

  predicate NotSpace(c: char) {
    c != ' '
  }

  predicate SpaceFree(s: string) {
    forall i :: 0 <= i < |s| ==> NotSpace(s[i])
  }

  /** The fields the line templates interpolate hold no space. */
  predicate Printable(e: Event) {
    SpaceFree(e.repo) && (e.Issues? ==> SpaceFree(e.action))
  }

  predicate HasPrefix(s: string, p: string) {
    |p| <= |s| && s[..|p|] == p
  }

  /** The length of the longest prefix of `s` whose characters all satisfy `p`. */
  function PrefixWhile(s: string, p: char -> bool): (k: nat)
    ensures k <= |s|
    ensures forall i :: 0 <= i < k ==> p(s[i])
    ensures k < |s| ==> !p(s[k])
  {
    if s == [] || !p(s[0]) then 0 else 1 + PrefixWhile(s[1..], p)
  }

  /** The longest such prefix of `a + b` is `a`, when `a` satisfies `p` throughout and `b` starts otherwise. */
  lemma {:induction false} PrefixWhileConcat(a: string, b: string, p: char -> bool)
    requires forall i :: 0 <= i < |a| ==> p(a[i])
    requires b != [] && !p(b[0])
    ensures PrefixWhile(a + b, p) == |a|
    decreases |a|
  {
    if a == [] {
      assert a + b == b;
    } else {
      assert (a + b)[1..] == a[1..] + b;
      PrefixWhileConcat(a[1..], b, p);
    }
  }

  const IssueInfix: string := " an issue in "
  const PushInfix: string := " commit(s) to "

  /** `<verb> an issue in <repo>`, with the verb ending at the first space. */
  function ParseIssue(line: string): Option<LineView> {
    var k := PrefixWhile(line, NotSpace);
    var rest := line[k..];
    if HasPrefix(rest, IssueInfix) && SpaceFree(rest[|IssueInfix|..])
    then Some(IssueLine(line[..k], rest[|IssueInfix|..]))
    else None
  }

  /** `Pushed <numeral> commit(s) to <repo>`, the numeral without leading zeros. */
  function ParsePushed(line: string): Option<LineView> {
    if !HasPrefix(line, "Pushed ") then None
    else
      var rest := line[7..];
      var k := PrefixWhile(rest, IsDigit);
      var tail := rest[k..];
      if k > 0 && Canonical(rest[..k]) && HasPrefix(tail, PushInfix) && SpaceFree(tail[|PushInfix|..])
      then Some(Pushed(DecimalValue(rest[..k]), tail[|PushInfix|..]))
      else None
  }

  /** `<word> <repo>` for a fixed word. */
  function ParseWord(line: string, word: string): Option<string> {
    if HasPrefix(line, word + " ") && SpaceFree(line[|word| + 1..])
    then Some(line[|word| + 1..])
    else None
  }

  /** Reads a printed line back; None for a string no template produces. */
  function ParseLine(line: string): Option<LineView> {
    match ParseIssue(line)
    case Some(v) => Some(v)
    case None =>
      match ParsePushed(line)
      case Some(v) => Some(v)
      case None =>
        match ParseWord(line, "Starred")
        case Some(r) => Some(Starred(r))
        case None =>
          match ParseWord(line, "Forked")
          case Some(r) => Some(Forked(r))
          case None => None
  }

  lemma CapitalizeSpaceFree(s: string)
    requires SpaceFree(s)
    ensures SpaceFree(Capitalize(s))
  {
  }

  /** A fixed word and a space, followed by a numeral or a space-free name, never read as an issue line. */
  lemma WordLineIsNoIssue(word: string, rest: string)
    requires |word| > 0 && SpaceFree(word)
    requires (|rest| > 0 && IsDigit(rest[0])) || SpaceFree(rest)
    ensures ParseIssue(word + " " + rest) == None
  {
    var line := word + " " + rest;
    assert line == word + (" " + rest);
    PrefixWhileConcat(word, " " + rest, NotSpace);
    var r := line[|word|..];
    assert r == " " + rest;
    if |rest| > 0 && IsDigit(rest[0]) {
      assert r[1] == rest[0] && IssueInfix[1] == 'a';
    } else if |rest| >= 3 {
      assert r[3] == rest[2] && IssueInfix[3] == ' ';
    }
  }

  lemma ParsePushedNumeral(d: string, repo: string)
    requires Canonical(d) && SpaceFree(repo)
    ensures ParsePushed("Pushed " + d + PushInfix + repo) == Some(Pushed(DecimalValue(d), repo))
  {
    var tail := PushInfix + repo;
    var rest := d + tail;
    var line := "Pushed " + rest;
    assert line == "Pushed " + d + PushInfix + repo;
    assert line[..7] == "Pushed " && line[7..] == rest;
    PrefixWhileConcat(d, tail, IsDigit);
    assert rest[..|d|] == d && rest[|d|..] == tail;
    assert tail[..|PushInfix|] == PushInfix && tail[|PushInfix|..] == repo;
  }

  lemma PushRoundTrip(repo: string, n: nat)
    requires SpaceFree(repo)
    ensures ParseLine("Pushed " + NatToDecimal(n) + PushInfix + repo) == Some(Pushed(n, repo))
  {
    var d := NatToDecimal(n);
    var line := "Pushed " + d + PushInfix + repo;
    assert line == "Pushed" + " " + (d + PushInfix + repo);
    WordLineIsNoIssue("Pushed", d + PushInfix + repo);
    ParsePushedNumeral(d, repo);
    DecimalRoundTrip(n);
  }

  lemma IssueRoundTrip(repo: string, action: string)
    requires SpaceFree(repo) && SpaceFree(action)
    ensures ParseLine(Capitalize(action) + IssueInfix + repo) == Some(IssueLine(Capitalize(action), repo))
  {
    var c := Capitalize(action);
    CapitalizeSpaceFree(action);
    var line := c + IssueInfix + repo;
    assert line == c + (IssueInfix + repo);
    PrefixWhileConcat(c, IssueInfix + repo, NotSpace);
    assert line[|c|..] == IssueInfix + repo;
    assert line[..|c|] == c;
  }

  lemma WatchRoundTrip(repo: string)
    requires SpaceFree(repo)
    ensures ParseLine("Starred " + repo) == Some(Starred(repo))
  {
    var line := "Starred " + repo;
    assert line == "Starred" + " " + repo;
    WordLineIsNoIssue("Starred", repo);
    assert !HasPrefix(line, "Pushed ") by {
      assert line[0] == 'S';
    }
    assert line[..8] == "Starred ";
    assert line[8..] == repo;
  }

  lemma ForkRoundTrip(repo: string)
    requires SpaceFree(repo)
    ensures ParseLine("Forked " + repo) == Some(Forked(repo))
  {
    var line := "Forked " + repo;
    assert line == "Forked" + " " + repo;
    WordLineIsNoIssue("Forked", repo);
    assert !HasPrefix(line, "Pushed ") && !HasPrefix(line, "Starred" + " ") by {
      assert line[0] == 'F';
    }
    assert line[..7] == "Forked ";
    assert line[7..] == repo;
  }

  /** Reading back the line an event prints recovers what the template shows of the event. */
  lemma RenderRoundTrip(e: Event)
    requires Printable(e)
    ensures Render(e).Some? ==> ParseLine(Render(e).value) == View(e)
    ensures Render(e).None? <==> View(e).None?
  {
    match e
    case Push(repo, commits) => PushRoundTrip(repo, |commits|);
    case Issues(repo, action) => IssueRoundTrip(repo, action);
    case Watch(repo) => WatchRoundTrip(repo);
    case Fork(repo) => ForkRoundTrip(repo);
    case Other(_, _) =>
  }

  /** What the lines of a feed should say, in feed order: one view per recognised event. */
  function Views(es: seq<Event>): seq<LineView> {
    if es == [] then []
    else (match View(es[0]) case Some(v) => [v] case None => []) + Views(es[1..])
  }

  /** Reading back every line a feed prints recovers, line by line, the views of its recognised events. */
  lemma {:induction false} FeedRoundTrip(es: seq<Event>)
    requires forall i :: 0 <= i < |es| ==> Printable(es[i])
    ensures |RenderEvents(es)| == |Views(es)|
    ensures forall k :: 0 <= k < |Views(es)| ==> ParseLine(RenderEvents(es)[k]) == Some(Views(es)[k])
    decreases |es|
  {
    if es != [] {
      assert forall i :: 0 <= i < |es[1..]| ==> es[1..][i] == es[i + 1];
      FeedRoundTrip(es[1..]);
      RenderRoundTrip(es[0]);
    }
  }
}
