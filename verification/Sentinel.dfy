/** The sentinel-wrapped search output of the test harness: printing a payload
    between two markers and finding it again. Decoding the payload as JSON is not
    part of this model. */
module Sentinel {
  import opened Wrappers

  const START := ">>>RESULTS<<<"
  const END := ">>>END<<<"

  datatype Failure = NoMarkers(stdout: string)

  ghost predicate Occurs(s: string, part: string, i: nat) {
    i + |part| <= |s| && s[i..i + |part|] == part
  }

  ghost predicate Contains(s: string, part: string) {
    exists i: nat :: Occurs(s, part, i)
  }

  function FindFrom(s: string, part: string, i: nat): int
    decreases |s| - i
  {
    if i + |part| > |s| then -1 else if s[i..i + |part|] == part then i else FindFrom(s, part, i + 1)
  }

  /** Python's `str.find`. */
  function Find(s: string, part: string): int {
    FindFrom(s, part, 0)
  }

  /** Python's `s[i:j]` for indices that are not negative. */
  function Slice(s: string, i: nat, j: nat): string {
    var stop := if j <= |s| then j else |s|;
    if i <= stop then s[i..stop] else ""
  }

  function Parse(stdout: string): Result<string, Failure> {
    var start, end := Find(stdout, START), Find(stdout, END);
    if start < 0 || end < 0 || end < start then Err(NoMarkers(stdout))
    else Ok(Slice(stdout, start + |START|, end))
  }

  function Print(pre: string, payload: string, post: string): string {
    pre + START + payload + END + post
  }

  // ----------------------------------------------------------------------- find

  /** The first occurrence from `i` on. */
  ghost predicate FirstFrom(s: string, part: string, i: nat, at: int) {
    && at >= i && Occurs(s, part, at)
    && (forall k: nat :: i <= k < at ==> !Occurs(s, part, k))
  }

  lemma {:induction false} FindFromFirst(s: string, part: string, i: nat)
    ensures var at := FindFrom(s, part, i);
            if at == -1 then forall k: nat :: k >= i ==> !Occurs(s, part, k) else FirstFrom(s, part, i, at)
    decreases |s| - i
  {
    if i + |part| <= |s| && s[i..i + |part|] != part {
      FindFromFirst(s, part, i + 1);
      assert !Occurs(s, part, i);
    }
  }

  /** `find` gives the first occurrence, and -1 if and only if there is none. */
  lemma FindIff(s: string, part: string, at: nat)
    ensures Find(s, part) == at <==> FirstFrom(s, part, 0, at)
    ensures Find(s, part) == -1 <==> !Contains(s, part)
    ensures Find(s, part) >= -1
  {
    FindFromFirst(s, part, 0);
  }

  // ----------------------------------------------------------------- the markers

  lemma OccursAt(s: string, part: string, i: nat, k: nat)
    requires Occurs(s, part, i) && k < |part|
    ensures s[i + k] == part[k]
  {
    assert s[i..i + |part|][k] == s[i + k];
  }

  /** No end of START is a beginning of START. */
  lemma StartOverStart(j: nat) returns (m: nat)
    requires 0 < j < |START|
    ensures j + m < |START| && START[j + m] != START[m]
  {
    m := if j <= 2 then 2 else 12 - j;
  }

  /** No end of END is a beginning of START. */
  lemma EndOverStart(j: nat) returns (m: nat)
    requires 0 < j < |END|
    ensures j + m < |END| && END[j + m] != START[m]
  {
    m := 8 - j;
  }

  /** No end of END is a beginning of END. */
  lemma EndOverEnd(j: nat) returns (m: nat)
    requires 0 < j < |END|
    ensures j + m < |END| && END[j + m] != END[m]
  {
    m := if j <= 2 then 2 else 8 - j;
  }

  /** END does not start inside START. */
  lemma EndInsideStart(j: nat) returns (m: nat)
    requires j < |START|
    ensures j + m < |START| && m < |END| && END[m] != START[j + m]
  {
    m := if j <= 2 then 3 - j else 0;
  }

  /** Both markers stand in `t`, one at `p` and one at `at`: what they have to agree
      on where they overlap. */
  lemma Overlap(t: string, a: string, p: nat, b: string, at: nat, m: nat)
    requires Occurs(t, a, p) && Occurs(t, b, at)
    requires m < |b| && p <= at + m < p + |a|
    ensures a[at + m - p] == b[m]
  {
    OccursAt(t, a, p, at + m - p);
    OccursAt(t, b, at, m);
  }

  lemma NoEarlierStart(t: string, at: nat, p: nat)
    requires Occurs(t, START, at) && Occurs(t, START, p) && p < at
    ensures p + |START| <= at
  {
    if p + |START| > at {
      var m := StartOverStart(at - p);
      Overlap(t, START, p, START, at, m);
    }
  }

  lemma NoEndAcrossStart(t: string, at: nat, p: nat)
    requires Occurs(t, START, at) && Occurs(t, END, p)
    ensures p + |END| <= at || at + |START| <= p
  {
    if p < at < p + |END| {
      var m := EndOverStart(at - p);
      Overlap(t, END, p, START, at, m);
    }
    if at <= p < at + |START| {
      var m := EndInsideStart(p - at);
      Overlap(t, START, at, END, p, m);
    }
  }

  lemma NoEarlierEnd(t: string, at: nat, p: nat)
    requires Occurs(t, END, at) && Occurs(t, END, p) && p < at
    ensures p + |END| <= at
  {
    if p + |END| > at {
      var m := EndOverEnd(at - p);
      Overlap(t, END, p, END, at, m);
    }
  }

  lemma OccursWithin(a: string, b: string, c: string, part: string, i: nat)
    requires |a| <= i && i + |part| <= |a| + |b|
    ensures Occurs(a + b + c, part, i) <==> Occurs(b, part, i - |a|)
  {
    assert (a + b + c)[i..i + |part|] == b[i - |a|..i - |a| + |part|];
  }

  lemma MarkersStand(pre: string, payload: string, post: string)
    ensures Occurs(Print(pre, payload, post), START, |pre|)
    ensures Occurs(Print(pre, payload, post), END, |pre| + |START| + |payload|)
  {
  }

  /** The first START is the printed one if and only if `pre` holds none. */
  lemma StartFoundIff(pre: string, payload: string, post: string)
    ensures Find(Print(pre, payload, post), START) == |pre| <==> !Contains(pre, START)
  {
    var t, rest := Print(pre, payload, post), START + payload + END + post;
    MarkersStand(pre, payload, post);
    FindIff(t, START, |pre|);
    assert t == "" + pre + rest;
    forall i: nat | i < |pre| ensures Occurs(t, START, i) <==> Occurs(pre, START, i) {
      if Occurs(t, START, i) { NoEarlierStart(t, |pre|, i); }
      if i + |START| <= |pre| { OccursWithin("", pre, rest, START, i); }
    }
  }

  lemma EndWithinPre(pre: string, payload: string, post: string, i: nat)
    requires i + |END| <= |pre|
    ensures Occurs(Print(pre, payload, post), END, i) <==> Occurs(pre, END, i)
  {
    var rest := START + payload + END + post;
    assert Print(pre, payload, post) == "" + pre + rest;
    OccursWithin("", pre, rest, END, i);
  }

  lemma EndWithinPayload(pre: string, payload: string, post: string, i: nat)
    requires |pre| + |START| <= i && i + |END| <= |pre| + |START| + |payload|
    ensures Occurs(Print(pre, payload, post), END, i) <==> Occurs(payload, END, i - |pre| - |START|)
  {
    var head, rest := pre + START, END + post;
    assert Print(pre, payload, post) == head + payload + rest;
    OccursWithin(head, payload, rest, END, i);
  }

  /** Where END stands in the output, before the printed one. */
  lemma EndBefore(pre: string, payload: string, post: string, i: nat)
    requires i < |pre| + |START| + |payload|
    ensures Occurs(Print(pre, payload, post), END, i) <==>
              || Occurs(pre, END, i)
              || (i >= |pre| + |START| && Occurs(payload, END, i - |pre| - |START|))
  {
    var t := Print(pre, payload, post);
    MarkersStand(pre, payload, post);
    if Occurs(t, END, i) {
      NoEndAcrossStart(t, |pre|, i);
      NoEarlierEnd(t, |pre| + |START| + |payload|, i);
    }
    if i + |END| <= |pre| { EndWithinPre(pre, payload, post, i); }
    if |pre| + |START| <= i && i + |END| <= |pre| + |START| + |payload| { EndWithinPayload(pre, payload, post, i); }
  }

  // --------------------------------------------------------------- main results

  /** The payload up to the first END in it, if it has one. */
  function UpToEnd(payload: string): string {
    var i := Find(payload, END);
    if 0 <= i <= |payload| then payload[..i] else payload
  }

  /** A START in the lead-in is the one found. */
  lemma StartInPre(pre: string, payload: string, post: string)
    requires Contains(pre, START)
    ensures Find(Print(pre, payload, post), START) == Find(pre, START)
    ensures 0 <= Find(pre, START) <= |pre| - |START|
  {
    var t, rest := Print(pre, payload, post), START + payload + END + post;
    FindIff(pre, START, 0);
    FindFromFirst(pre, START, 0);
    var at := Find(pre, START);
    assert t == "" + pre + rest;
    forall i: nat | i + |START| <= |pre| ensures Occurs(t, START, i) <==> Occurs(pre, START, i) {
      OccursWithin("", pre, rest, START, i);
    }
    FindIff(t, START, at);
  }

  /** And so is an END. */
  lemma EndInPre(pre: string, payload: string, post: string)
    requires Contains(pre, END)
    ensures Find(Print(pre, payload, post), END) == Find(pre, END)
    ensures 0 <= Find(pre, END) <= |pre| - |END|
  {
    var t := Print(pre, payload, post);
    FindIff(pre, END, 0);
    FindFromFirst(pre, END, 0);
    var at := Find(pre, END);
    forall i: nat | i + |END| <= |pre| ensures Occurs(t, END, i) <==> Occurs(pre, END, i) {
      EndWithinPre(pre, payload, post, i);
    }
    FindIff(t, END, at);
  }

  lemma EndInPayload(pre: string, payload: string, post: string)
    requires !Contains(pre, END)
    ensures Find(Print(pre, payload, post), END) == |pre| + |START| + |UpToEnd(payload)|
  {
    var t, base := Print(pre, payload, post), |pre| + |START|;
    var found := Find(payload, END);
    FindFromFirst(payload, END, 0);
    MarkersStand(pre, payload, post);
    var at := base + |UpToEnd(payload)|;
    forall i: nat | i < at ensures !Occurs(t, END, i) {
      EndBefore(pre, payload, post, i);
    }
    if found >= 0 { EndBefore(pre, payload, post, at); }
    FindIff(t, END, at);
  }

  /** What follows the first START of the lead-in. */
  function AfterStart(pre: string): string {
    Slice(pre, if Find(pre, START) >= 0 then Find(pre, START) + |START| else 0, |pre|)
  }

  lemma SliceOfPrefix(pre: string, rest: string, i: nat, j: nat)
    requires j <= |pre|
    ensures Slice(pre + rest, i, j) == Slice(pre, i, j)
  {
    if i <= j { assert (pre + rest)[i..j] == pre[i..j]; }
  }

  lemma BothInPre(pre: string, payload: string, post: string)
    requires Contains(pre, START) && Contains(pre, END)
    ensures Parse(Print(pre, payload, post)) ==
            if Parse(pre).Ok? then Parse(pre) else Err(NoMarkers(Print(pre, payload, post)))
  {
    var rest := START + payload + END + post;
    StartInPre(pre, payload, post);
    EndInPre(pre, payload, post);
    assert Print(pre, payload, post) == pre + rest;
    SliceOfPrefix(pre, rest, Find(pre, START) + |START|, Find(pre, END));
  }

  lemma SliceAcross(pre: string, more: string, rest: string, i: nat)
    requires i <= |pre|
    ensures Slice(pre + more + rest, i, |pre| + |more|) == Slice(pre, i, |pre|) + more
  {
    assert (pre + more + rest)[i..|pre| + |more|] == pre[i..] + more;
  }

  lemma PayloadSplits(payload: string) returns (tail: string)
    ensures payload == UpToEnd(payload) + tail
  {
    tail := payload[|UpToEnd(payload)|..];
  }

  lemma Regroup(pre: string, start: string, upTo: string, tail: string, end: string, post: string)
    ensures pre + start + (upTo + tail) + end + post == (pre + start) + upTo + (tail + end + post)
    ensures pre + start + (upTo + tail) + end + post == pre + (start + upTo) + (tail + end + post)
  {
  }

  lemma Associate(a: string, b: string, c: string)
    ensures a + (b + c) == a + b + c
  {
  }

  lemma NoMarkerInPre(pre: string, payload: string, post: string)
    requires !Contains(pre, START) && !Contains(pre, END)
    ensures Parse(Print(pre, payload, post)) == Ok(UpToEnd(payload))
  {
    var tail := PayloadSplits(payload);
    var head, upTo, rest := pre + START, UpToEnd(payload), tail + END + post;
    StartFoundIff(pre, payload, post);
    EndInPayload(pre, payload, post);
    Regroup(pre, START, upTo, tail, END, post);
    SliceAcross(head, upTo, rest, |head|);
    assert "" + upTo == upTo;
  }

  lemma StartAloneInPre(pre: string, payload: string, post: string)
    requires Contains(pre, START) && !Contains(pre, END)
    ensures Parse(Print(pre, payload, post)) == Ok(AfterStart(pre) + START + UpToEnd(payload))
  {
    var tail := PayloadSplits(payload);
    var upTo := UpToEnd(payload);
    StartInPre(pre, payload, post);
    EndInPayload(pre, payload, post);
    Regroup(pre, START, upTo, tail, END, post);
    SliceAcross(pre, START + upTo, tail + END + post, Find(pre, START) + |START|);
    Associate(AfterStart(pre), START, upTo);
  }

  /** What parsing makes of any printed output. A lead-in that holds END has taken
      over: its own payload is returned, or an error if END comes without a START
      before it. A lead-in with START alone puts its rest and the printed START
      before the payload. In any case the payload stops at its first END. */
  lemma ParseOfPrint(pre: string, payload: string, post: string)
    ensures Parse(Print(pre, payload, post)) ==
            if Contains(pre, END) then
              if Parse(pre).Ok? then Parse(pre) else Err(NoMarkers(Print(pre, payload, post)))
            else if Contains(pre, START) then Ok(AfterStart(pre) + START + UpToEnd(payload))
            else Ok(UpToEnd(payload))
  {
    if !Contains(pre, END) && Contains(pre, START) {
      StartAloneInPre(pre, payload, post);
    } else if !Contains(pre, END) {
      NoMarkerInPre(pre, payload, post);
    } else if Contains(pre, START) {
      BothInPre(pre, payload, post);
    } else {
      StartFoundIff(pre, payload, post);
      EndInPre(pre, payload, post);
      FindIff(pre, START, 0);
    }
  }

  /** The text up to the first END holds no END. */
  lemma UpToEndHoldsNone(payload: string)
    ensures !Contains(UpToEnd(payload), END)
    ensures Contains(payload, END) ==> |UpToEnd(payload)| < |payload|
    ensures !Contains(payload, END) ==> UpToEnd(payload) == payload
  {
    FindIff(payload, END, 0);
    FindFromFirst(payload, END, 0);
    var upTo := UpToEnd(payload);
    var tail := PayloadSplits(payload);
    assert payload == "" + upTo + tail;
    forall i: nat | i + |END| <= |upTo| ensures !Occurs(upTo, END, i) {
      OccursWithin("", upTo, tail, END, i);
    }
  }

  /** A lead-in with START alone never gives the payload back: what it adds is too
      long, unless the payload is cut, and then it holds an END that the result
      does not. */
  lemma StartAloneNeverRecovers(pre: string, payload: string, post: string)
    requires Contains(pre, START) && !Contains(pre, END)
    ensures Parse(Print(pre, payload, post)) != Ok(payload)
  {
    ParseOfPrint(pre, payload, post);
    UpToEndHoldsNone(payload);
    if Contains(payload, END) && Parse(Print(pre, payload, post)) == Ok(payload) {
      var u: nat :| Occurs(payload, END, u);
      ResultHoldsNoEnd(pre, payload, post, u);
    }
  }

  /** Before the first END there is no other. */
  lemma NoneBeforeFirst(t: string, i: nat, at: nat, u: nat)
    requires i <= at <= |t| && FirstFrom(t, END, 0, at)
    ensures !Occurs(t[i..at], END, u)
  {
    var cut := t[i..at];
    if Occurs(cut, END, u) {
      assert t == t[..i] + cut + t[at..];
      OccursWithin(t[..i], cut, t[at..], END, i + u);
    }
  }

  lemma ResultHoldsNoEnd(pre: string, payload: string, post: string, u: nat)
    requires Contains(pre, START) && !Contains(pre, END)
    ensures Parse(Print(pre, payload, post)).Ok? && !Occurs(Parse(Print(pre, payload, post)).value, END, u)
  {
    var t := Print(pre, payload, post);
    StartInPre(pre, payload, post);
    EndInPayload(pre, payload, post);
    FindIff(t, END, Find(t, END));
    NoneBeforeFirst(t, Find(t, START) + |START|, Find(t, END), u);
  }

  /** The payload comes back if and only if the lead-in holds no marker and the
      payload no END, or the lead-in holds a START and, by itself, that payload. */
  lemma RecoveredIff(pre: string, payload: string, post: string)
    ensures Parse(Print(pre, payload, post)) == Ok(payload) <==>
              if Contains(pre, START) then Parse(pre) == Ok(payload)
              else !Contains(pre, END) && !Contains(payload, END)
  {
    ParseOfPrint(pre, payload, post);
    UpToEndHoldsNone(payload);
    FindIff(pre, START, 0);
    FindIff(pre, END, 0);
    if Contains(pre, START) && !Contains(pre, END) { StartAloneNeverRecovers(pre, payload, post); }
  }

  /** A result that quotes the closing marker is cut, and a log line that quotes the
      opening one comes back as part of the payload. */
  lemma MarkersQuoted()
    ensures Parse(Print("", END, "")) == Ok("")
    ensures Parse(Print(START, "", "")) == Ok(START)
  {
    var start, end := START, END;
    assert Occurs(end, END, 0) && Occurs(start, START, 0);
    FindIff(end, END, 0);
    FindIff(start, START, 0);
    NoMarkerIn("", START);
    NoMarkerIn("", END);
    StartHoldsNoEnd(start);
    ParseOfPrint("", end, "");
    ParseOfPrint(start, "", "");
    FindIff("", END, 0);
    assert "" + START + "" == START;
  }

  lemma NoMarkerIn(s: string, part: string)
    requires |s| < |part|
    ensures !Contains(s, part)
  {
  }

  lemma StartHoldsNoEnd(s: string)
    requires s == START
    ensures !Contains(s, END)
  {
    forall i: nat ensures !Occurs(s, END, i) {
      if Occurs(s, END, i) {
        assert Occurs(s, START, 0);
        NoEndAcrossStart(s, 0, i);
      }
    }
  }

  /** The first START and the first END of a text, and what is between them. */
  ghost predicate Between(s: string, i: nat, j: nat, v: string) {
    && FirstFrom(s, START, 0, i) && FirstFrom(s, END, 0, j)
    && i + |START| <= j <= |s| && v == s[i + |START|..j]
  }

  /** Parsing any text: what stands between its first START and its first END, and an
      error if a marker is missing or the first END comes before the first START. */
  lemma ParseMeans(s: string, v: string)
    ensures Parse(s) == Ok(v) <==> exists i, j :: Between(s, i, j, v)
    ensures Parse(s).Err? <==>
              || !Contains(s, START) || !Contains(s, END)
              || exists i: nat, j: nat :: FirstFrom(s, START, 0, i) && FirstFrom(s, END, 0, j) && j < i
    ensures Parse(s).Err? ==> Parse(s) == Err(NoMarkers(s))
  {
    var i, j := Find(s, START), Find(s, END);
    FindIff(s, START, 0);
    FindIff(s, END, 0);
    if i >= 0 && j >= 0 {
      FoundOnce(s, i, j);
      assert FirstFrom(s, START, 0, i) && FirstFrom(s, END, 0, j);
      if i <= j { NoEndAcrossStart(s, i, j); }
    }
    if Parse(s) == Ok(v) { assert Between(s, i, j, v); }
  }

  /** There is only one first occurrence. */
  lemma FoundOnce(s: string, i: nat, j: nat)
    requires Find(s, START) == i && Find(s, END) == j
    ensures forall k: nat :: FirstFrom(s, START, 0, k) <==> k == i
    ensures forall k: nat :: FirstFrom(s, END, 0, k) <==> k == j
  {
    forall k: nat ensures FirstFrom(s, START, 0, k) <==> k == i { FindIff(s, START, k); }
    forall k: nat ensures FirstFrom(s, END, 0, k) <==> k == j { FindIff(s, END, k); }
  }
}
