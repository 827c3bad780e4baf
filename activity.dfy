/**
 * Rendering of a user's public activity feed as console lines
 * (`displayActivity` and `capitalize` of index.js).
 *
 * An event of the feed is dispatched on its `type` tag to one fixed line
 * template; tags other than PushEvent, IssuesEvent, WatchEvent and ForkEvent
 * print nothing, and an empty feed prints one fixed message.
 */
module Activity {
  import opened Wrappers
  import opened Decimal

  /** A commit listed in a PushEvent's payload; only the number of commits is printed. */
  datatype Commit = Commit(sha: string, message: string)

  /** An activity event, by its `type` tag; `repo` is the event's `repo.name`. */
  datatype Event =
    | Push(repo: string, commits: seq<Commit>)
    | Issues(repo: string, action: string)
    | Watch(repo: string)
    | Fork(repo: string)
    | Other(repo: string, kind: string)
  {
    /** The event's `type` field. */
    function Tag(): string {
      match this
      case Push(_, _) => "PushEvent"
      case Issues(_, _) => "IssuesEvent"
      case Watch(_) => "WatchEvent"
      case Fork(_) => "ForkEvent"
      case Other(_, k) => k
    }

    /** An `Other` event carries a tag the dispatch does not recognise. */
    predicate WellFormed() {
      Other? ==> kind !in KnownTags
    }
  }

  const KnownTags: set<string> := {"PushEvent", "IssuesEvent", "WatchEvent", "ForkEvent"}

  const NoActivityMessage: string := "No recent public activity found."

  // ---------------------------------------------------------------- capitalize

  predicate IsLowerAscii(c: char) {
    'a' <= c <= 'z'
  }

  /** `toUpperCase` on one character, restricted to ASCII letters. */
  function ToUpperAscii(c: char): (u: char)
    ensures IsLowerAscii(c) ==> u as int == c as int - 32 && 'A' <= u <= 'Z'
    ensures !IsLowerAscii(c) ==> u == c
  {
    if IsLowerAscii(c) then (c as int - 32) as char else c
  }

  /** `str.charAt(0).toUpperCase() + str.slice(1)`. */
  function Capitalize(s: string): (r: string)
    ensures |r| == |s|
    ensures forall i :: 1 <= i < |s| ==> r[i] == s[i]
    ensures |s| > 0 ==> !IsLowerAscii(r[0]) && (r[0] == s[0] || (IsLowerAscii(s[0]) && r[0] as int == s[0] as int - 32))
  {
    if |s| == 0 then "" else [ToUpperAscii(s[0])] + s[1..]
  }

  /** Capitalising twice is capitalising once. */
  lemma CapitalizeIdempotent(s: string)
    ensures Capitalize(Capitalize(s)) == Capitalize(s)
  {
    if |s| > 0 {
      assert Capitalize(Capitalize(s))[0] == Capitalize(s)[0];
    }
  }

  // ---------------------------------------------------------------- one event

  /** The line one event prints, or None when its tag falls to the `default` arm. */
  function Render(e: Event): (r: Option<string>)
    ensures r.None? <==> e.Other?
  {
    match e
    case Push(repo, commits) => Some("Pushed " + NatToDecimal(|commits|) + " commit(s) to " + repo)
    case Issues(repo, action) => Some(Capitalize(action) + " an issue in " + repo)
    case Watch(repo) => Some("Starred " + repo)
    case Fork(repo) => Some("Forked " + repo)
    case Other(_, _) => None
  }

  /** The dispatch in terms of the `type` string: a line is printed exactly for the four known tags. */
  lemma RenderIffKnownTag(e: Event)
    requires e.WellFormed()
    ensures Render(e).Some? <==> e.Tag() in KnownTags
  {
  }

  /** The lines an event contributes to the output: zero or one. */
  function LinesOf(e: Event): (ls: seq<string>)
    ensures |ls| <= 1
  {
    match Render(e)
    case None => []
    case Some(l) => [l]
  }

  // ---------------------------------------------------------------- a feed

  /** The lines the `forEach` over a non-empty feed prints, in order. */
  function RenderEvents(es: seq<Event>): (r: seq<string>)
    ensures |r| <= |es|
    ensures NoActivityMessage !in r
  {
    if es == [] then []
    else
      MessageIsNoEventLine(es[0]);
      LinesOf(es[0]) + RenderEvents(es[1..])
  }

  /** A feed as the source receives it: every `Other` event has a tag the switch does not match. */
  predicate WellFormedFeed(es: seq<Event>) {
    forall i :: 0 <= i < |es| ==> es[i].WellFormed()
  }

  /** Everything `displayActivity(events)` prints. */
  function DisplayLines(es: seq<Event>): (r: seq<string>)
    requires WellFormedFeed(es)
    ensures NoActivityMessage in r <==> |es| == 0
    ensures |es| > 0 ==> |r| <= |es|
  {
    if |es| == 0 then [NoActivityMessage] else RenderEvents(es)
  }

  /** Rendering distributes over concatenation of feeds. */
  lemma {:induction false} RenderEventsConcat(a: seq<Event>, b: seq<Event>)
    ensures RenderEvents(a + b) == RenderEvents(a) + RenderEvents(b)
    decreases |a|
  {
    if a == [] {
      assert a + b == b;
    } else {
      assert (a + b)[0] == a[0];
      assert (a + b)[1..] == a[1..] + b;
      RenderEventsConcat(a[1..], b);
      assert LinesOf(a[0]) + (RenderEvents(a[1..]) + RenderEvents(b))
          == (LinesOf(a[0]) + RenderEvents(a[1..])) + RenderEvents(b);
    }
  }

  predicate Recognised(e: Event) {
    !e.Other?
  }

  /** At most one line per event; exactly one per event iff every event is recognised. */
  lemma {:induction false} RenderEventsLength(es: seq<Event>)
    ensures |RenderEvents(es)| <= |es|
    ensures |RenderEvents(es)| == |es| <==> forall i :: 0 <= i < |es| ==> Recognised(es[i])
    ensures |RenderEvents(es)| == 0 <==> forall i :: 0 <= i < |es| ==> !Recognised(es[i])
    decreases |es|
  {
    if es != [] {
      RenderEventsLength(es[1..]);
      assert forall i :: 1 <= i < |es| ==> es[i] == es[1..][i - 1];
    }
  }

  /** The position in the output of the line of event `i`: the lines printed before it. */
  function Rank(es: seq<Event>, i: nat): nat
    requires i <= |es|
  {
    |RenderEvents(es[..i])|
  }

  /** A recognised event's line sits at its rank in the output. */
  lemma LineAtRank(es: seq<Event>, i: nat)
    requires i < |es| && Recognised(es[i])
    ensures Rank(es, i) < |RenderEvents(es)|
    ensures RenderEvents(es)[Rank(es, i)] == Render(es[i]).value
  {
    assert es == es[..i] + ([es[i]] + es[i + 1..]);
    RenderEventsConcat(es[..i], [es[i]] + es[i + 1..]);
    RenderEventsConcat([es[i]], es[i + 1..]);
    assert RenderEvents([es[i]]) == [Render(es[i]).value] by {
      assert [es[i]][1..] == [];
    }
  }

  /** Output order follows input order: a recognised event's line precedes every later event's line. */
  lemma RankIncreasing(es: seq<Event>, i: nat, j: nat)
    requires i < j <= |es| && Recognised(es[i])
    ensures Rank(es, i) < Rank(es, j)
  {
    assert es[..j] == es[..i] + ([es[i]] + es[i + 1..j]);
    RenderEventsConcat(es[..i], [es[i]] + es[i + 1..j]);
    RenderEventsConcat([es[i]], es[i + 1..j]);
    assert RenderEvents([es[i]]) == [Render(es[i]).value] by {
      assert [es[i]][1..] == [];
    }
  }

  /** No line is printed that does not come from a recognised event at that rank. */
  lemma {:induction false} EveryLineHasSource(es: seq<Event>, k: nat)
    requires k < |RenderEvents(es)|
    ensures exists i :: 0 <= i < |es| && Recognised(es[i]) && Rank(es, i) == k
    decreases |es|
  {
    assert es != [];
    var rest := es[1..];
    assert forall n :: 0 <= n <= |rest| ==> es[..n + 1] == [es[0]] + rest[..n];
    if Recognised(es[0]) && k == 0 {
      assert es[..0] == [];
      assert Rank(es, 0) == 0;
    } else {
      var k' := k - |LinesOf(es[0])|;
      EveryLineHasSource(rest, k');
      var i' :| 0 <= i' < |rest| && Recognised(rest[i']) && Rank(rest, i') == k';
      RenderEventsConcat([es[0]], rest[..i']);
      assert RenderEvents([es[0]]) == LinesOf(es[0]) by {
        assert [es[0]][1..] == [];
      }
      assert Rank(es, i' + 1) == k;
    }
  }

  /** The no-activity message is not the line of any event. */
  lemma MessageIsNoEventLine(e: Event)
    ensures Render(e) != Some(NoActivityMessage)
  {
    var m := NoActivityMessage;
    match e
    case Issues(repo, action) =>
      var c := Capitalize(action);
      var line := c + " an issue in " + repo;
      assert line[|c|] == ' ' && line[|c| + 1] == 'a' && line[|c| + 2] == 'n';
    case Push(repo, commits) =>
      assert ("Pushed " + NatToDecimal(|commits|) + " commit(s) to " + repo)[0] == 'P';
    case Watch(repo) =>
      assert ("Starred " + repo)[0] == 'S';
    case Fork(repo) =>
      assert ("Forked " + repo)[0] == 'F';
    case Other(_, _) =>
  }

  /** A non-empty feed prints at most one line per event, and nothing else. */
  lemma DisplayNonEmpty(es: seq<Event>)
    requires WellFormedFeed(es) && |es| > 0
    ensures |DisplayLines(es)| <= |es|
    ensures DisplayLines(es) == [] <==> forall i :: 0 <= i < |es| ==> !Recognised(es[i])
  {
    RenderEventsLength(es);
  }

  // ---------------------------------------------------------------- displayActivity

  /** `displayActivity(events)`: the lines printed to the console, in order. */
  method DisplayActivity(events: seq<Event>) returns (out: seq<string>)
    requires WellFormedFeed(events)
    ensures out == DisplayLines(events)
    ensures |events| == 0 ==> out == [NoActivityMessage]
    ensures |events| > 0 ==> |out| <= |events| && NoActivityMessage !in out
  {
    if |events| == 0 {
      out := [NoActivityMessage];
      return;
    }
    out := [];
    for i := 0 to |events|
      invariant out == RenderEvents(events[..i])
    {
      var event := events[i];
      match event {
        case Push(repo, commits) =>
          out := out + ["Pushed " + NatToDecimal(|commits|) + " commit(s) to " + repo];
        case Issues(repo, action) =>
          out := out + [Capitalize(action) + " an issue in " + repo];
        case Watch(repo) =>
          out := out + ["Starred " + repo];
        case Fork(repo) =>
          out := out + ["Forked " + repo];
        case Other(_, _) =>
      }
      RenderEventsConcat(events[..i], [event]);
      assert events[..i + 1] == events[..i] + [event];
      assert [event][1..] == [];
    }
    assert events[..|events|] == events;
  }
}
