/** Topic patterns and event types (crates/nova-event/src/subscription.rs, event.rs). */
module Topics {
  import opened Outcomes

  datatype Segment = Literal(text: string) | SingleWildcard | MultiWildcard

  /** Recursive matcher, branch for branch as the subscription code has it. */
  predicate Matches(pattern: seq<Segment>, event: seq<string>)
    decreases |pattern|
  {
    if |pattern| > 0 && pattern[0].MultiWildcard? then true
    else if |pattern| > 0 && |event| > 0 && pattern[0].SingleWildcard? then
      Matches(pattern[1..], event[1..])
    else if |pattern| > 0 && |event| > 0 && pattern[0] == Literal(event[0]) then
      Matches(pattern[1..], event[1..])
    else |pattern| == 0 && |event| == 0
  }

  /** A multi-level wildcard may only stand in the last place. */
  ghost predicate MultiOnlyLast(pattern: seq<Segment>) {
    forall i :: 0 <= i < |pattern| && pattern[i].MultiWildcard? ==> i == |pattern| - 1
  }

  predicate SegmentFits(segment: Segment, text: string) {
    segment.SingleWildcard? || segment == Literal(text)
  }

  ghost predicate PrefixFits(pattern: seq<Segment>, event: seq<string>, n: nat)
    requires n <= |pattern| && n <= |event|
  {
    forall i :: 0 <= i < n ==> SegmentFits(pattern[i], event[i])
  }

  /** What a pattern means, position by position and without recursion. */
  ghost predicate Denotes(pattern: seq<Segment>, event: seq<string>) {
    if |pattern| > 0 && pattern[|pattern| - 1].MultiWildcard?
    then |event| >= |pattern| - 1 && PrefixFits(pattern, event, |pattern| - 1)
    else |event| == |pattern| && PrefixFits(pattern, event, |pattern|)
  }

  lemma {:induction false} MatchesIsDenotes(pattern: seq<Segment>, event: seq<string>)
    requires MultiOnlyLast(pattern)
    ensures Matches(pattern, event) <==> Denotes(pattern, event)
    decreases |pattern|
  {
    if |pattern| > 0 && !pattern[0].MultiWildcard? && |event| > 0 {
      var p, e := pattern[1..], event[1..];
      MatchesIsDenotes(p, e);
      if SegmentFits(pattern[0], event[0]) && Denotes(p, e) {
        forall i | 0 <= i < |p| && i < |e| && SegmentFits(p[i], e[i])
          ensures SegmentFits(pattern[i + 1], event[i + 1])
        {}
        forall i | 0 < i < |pattern| && i < |event|
          ensures pattern[i] == p[i - 1] && event[i] == e[i - 1]
        {}
      }
      if Denotes(pattern, event) {
        assert SegmentFits(pattern[0], event[0]);
        forall i | 0 <= i < |p| ensures p[i] == pattern[i + 1] {}
        forall i | 0 <= i < |e| ensures e[i] == event[i + 1] {}
      }
    }
  }

  // ---- Parsing ----

  ghost predicate Dotless(pieces: seq<string>) {
    forall i :: 0 <= i < |pieces| ==> '.' !in pieces[i]
  }

  /** `str::split('.')`: always at least one piece. */
  function SplitDots(s: string): (pieces: seq<string>)
    ensures |pieces| >= 1 && Dotless(pieces)
  {
    if s == "" then [""]
    else
      var rest := SplitDots(s[1..]);
      if s[0] == '.' then [""] + rest else [[s[0]] + rest[0]] + rest[1..]
  }

  function JoinDots(pieces: seq<string>): string
    requires |pieces| >= 1
  {
    if |pieces| == 1 then pieces[0] else pieces[0] + "." + JoinDots(pieces[1..])
  }

  lemma {:induction false} JoinAfterSplit(s: string)
    ensures JoinDots(SplitDots(s)) == s
  {
    if s != "" {
      JoinAfterSplit(s[1..]);
      var rest := SplitDots(s[1..]);
      if s[0] == '.' {
        assert SplitDots(s)[1..] == rest;
      } else {
        assert SplitDots(s)[1..] == rest[1..];
      }
    }
  }

  /** No other way of cutting the text into pieces without dots joins up to it. */
  lemma {:induction false} SplitAfterJoin(pieces: seq<string>)
    requires |pieces| >= 1 && Dotless(pieces)
    ensures SplitDots(JoinDots(pieces)) == pieces
    decreases |pieces|, |pieces[0]|
  {
    var text := JoinDots(pieces);
    if pieces[0] == "" {
      if |pieces| > 1 {
        assert text[1..] == JoinDots(pieces[1..]);
        SplitAfterJoin(pieces[1..]);
      }
    } else {
      var shorter := [pieces[0][1..]] + pieces[1..];
      assert text[1..] == JoinDots(shorter) by {
        if |pieces| > 1 { assert shorter[1..] == pieces[1..]; }
      }
      assert '.' !in pieces[0] && pieces[0][0] != '.';
      SplitAfterJoin(shorter);
      assert [text[0]] + shorter[0] == pieces[0] && shorter[1..] == pieces[1..];
    }
  }

  function Classify(piece: string): Segment {
    if piece == "+" then SingleWildcard else if piece == "*" then MultiWildcard else Literal(piece)
  }

  function Render(segment: Segment): string {
    match segment
    case Literal(text) => text
    case SingleWildcard => "+"
    case MultiWildcard => "*"
  }

  /** `TopicPattern::new`: accepts exactly the strings with no empty piece and `*` nowhere but last. */
  method NewPattern(raw: string) returns (r: Result<seq<Segment>>)
    ensures r.Ok? <==>
            && raw != ""
            && "" !in SplitDots(raw)
            && forall i :: 0 <= i < |SplitDots(raw)| - 1 ==> SplitDots(raw)[i] != "*"
    ensures r.Ok? ==>
              && MultiOnlyLast(r.value)
              && |r.value| == |SplitDots(raw)|
              && (forall i :: 0 <= i < |r.value| ==> Render(r.value[i]) == SplitDots(raw)[i])
              && (forall i :: 0 <= i < |r.value| ==>
                    && (r.value[i] == SingleWildcard <==> SplitDots(raw)[i] == "+")
                    && (r.value[i] == MultiWildcard <==> SplitDots(raw)[i] == "*"))
              && Literal("+") !in r.value && Literal("*") !in r.value
    ensures r.Err? ==> r == Err(InvalidPattern)
  {
    var pieces := SplitDots(raw);
    if raw == "" {
      return Err(InvalidPattern);
    }
    if "" in pieces {
      return Err(InvalidPattern);
    }
    var segments, hasMulti := [], false;
    for n := 0 to |pieces|
      invariant |segments| == n
      invariant forall i :: 0 <= i < n ==> segments[i] == Classify(pieces[i])
      invariant hasMulti <==> n > 0 && segments[n - 1].MultiWildcard?
      invariant forall i :: 0 <= i < n - 1 ==> pieces[i] != "*"
    {
      if hasMulti {
        assert pieces[n - 1] == "*";
        return Err(InvalidPattern);
      }
      segments := segments + [Classify(pieces[n])];
      hasMulti := pieces[n] == "*";
    }
    return Ok(segments);
  }

  /** The parsed segments determine the text they came from. */
  lemma RenderedPatternIsTheText(raw: string, segments: seq<Segment>)
    requires |segments| == |SplitDots(raw)|
    requires forall i :: 0 <= i < |segments| ==> Render(segments[i]) == SplitDots(raw)[i]
    ensures JoinDots(seq(|segments|, i requires 0 <= i < |segments| => Render(segments[i]))) == raw
  {
    JoinAfterSplit(raw);
    assert seq(|segments|, i requires 0 <= i < |segments| => Render(segments[i])) == SplitDots(raw);
  }
}
