/** The line-scan state machine that BasExtractor.analyze and
    FrmExtractor.analyze both run. Each line is first read into a Mark (the
    title it declares, the block header it opens, whether it is a block end,
    and the call references on it); the loop then keeps the first title,
    opens a block on every header (discarding a block already open), appends
    the calls of body lines to the open block and emits the open block when an
    end line closes it. A block still open at the end of the file is dropped. */
module LineScan {
  import opened Base
  import opened Text
  import opened Facts
  import opened Patterns

  /** What the analyze loop reads from one line. `header` is the block's name
      and kind; `calls` is what extractCalls returns for the line. */
  datatype Mark = Mark(title: Option<string>, header: Option<(string, string)>, closes: bool, calls: seq<Call>)

  /** A routine or event: name, kind, 1-based header line, calls in order. */
  datatype Block = Block(name: string, kind: string, lineNumber: nat, calls: seq<Call>)

  /** The loop's variables: the title found so far, the emitted blocks and
      the block currently open (the Java code's `current*` variables, null
      when no block is open). */
  datatype Scan = Scan(title: Option<string>, blocks: seq<Block>, open: Option<Block>)

  /** One iteration of the loop, on the line whose 1-based number is `number`. */
  function Step(st: Scan, m: Mark, number: nat): Scan
  {
    var title := if st.title.None? then m.title else st.title;
    if m.header.Some? then Scan(title, st.blocks, Some(Block(m.header.value.0, m.header.value.1, number, [])))
    else if st.open.None? then Scan(title, st.blocks, None)
    else if m.closes then Scan(title, st.blocks + [st.open.value], None)
    else Scan(title, st.blocks, Some(st.open.value.(calls := st.open.value.calls + m.calls)))
  }

  /** The state after the loop has read every mark of `ms`. */
  function Run(ms: seq<Mark>): Scan
  {
    if ms == [] then Scan(None, [], None) else Step(Run(ms[..|ms| - 1]), ms[|ms| - 1], |ms|)
  }

  /** The loop reads the marks one at a time. */
  lemma RunStep(ms: seq<Mark>, i: nat)
    requires i < |ms|
    ensures Run(ms[..i + 1]) == Step(Run(ms[..i]), ms[i], i + 1)
  {
    assert ms[..i + 1][..i] == ms[..i];
  }

  // ---------------------------------------------------------------------
  // An independent description of the result
  // ---------------------------------------------------------------------

  /** The calls of the lines with indices a .. b-1, in line order. */
  function CallsBetween(ms: seq<Mark>, a: nat, b: nat): seq<Call>
    requires b <= |ms|
    decreases b
  {
    if b <= a then [] else CallsBetween(ms, a, b - 1) + ms[b - 1].calls
  }

  /** The header at index `s` is followed by an end at index `e` with no header
      and no end between them. */
  predicate Span(ms: seq<Mark>, s: nat, e: nat)
  {
    s < e < |ms| && ms[s].header.Some? && ms[e].header.None? && ms[e].closes &&
    forall t :: s < t < e ==> ms[t].header.None? && !ms[t].closes
  }

  /** The header at index `s` is followed by neither a header nor an end. */
  predicate OpenFrom(ms: seq<Mark>, s: nat)
  {
    s < |ms| && ms[s].header.Some? &&
    forall t :: s < t < |ms| ==> ms[t].header.None? && !ms[t].closes
  }

  /** The block opened at index `s`, with the calls of the lines before index `e`. */
  function BlockAt(ms: seq<Mark>, s: nat, e: nat): (b: Block)
    requires s < e <= |ms| && ms[s].header.Some?
    ensures b.lineNumber == s + 1
  {
    Block(ms[s].header.value.0, ms[s].header.value.1, s + 1, CallsBetween(ms, s + 1, e))
  }

  // ---------------------------------------------------------------------
  // Properties
  // ---------------------------------------------------------------------

  /** Reading further lines does not change the calls of earlier ones. */
  lemma {:induction false} CallsBetweenPrefix(ms: seq<Mark>, m: Mark, a: nat, b: nat)
    requires b <= |ms|
    ensures CallsBetween(ms + [m], a, b) == CallsBetween(ms, a, b)
    decreases b
  {
    if a < b {
      CallsBetweenPrefix(ms, m, a, b - 1);
    }
  }

  /** The title is the first one any line declares, on any line, inside a
      block or not, and later titles never replace it. */
  lemma {:induction false} TitleIsFirst(ms: seq<Mark>)
    ensures Run(ms).title.None? <==> forall i :: 0 <= i < |ms| ==> ms[i].title.None?
    ensures Run(ms).title.Some? ==>
      exists i :: 0 <= i < |ms| && Run(ms).title == ms[i].title && forall j :: 0 <= j < i ==> ms[j].title.None?
  {
    if ms != [] {
      var init := ms[..|ms| - 1];
      TitleIsFirst(init);
      assert forall i :: 0 <= i < |init| ==> init[i] == ms[i];
      if Run(init).title.Some? {
        var i :| 0 <= i < |init| && Run(init).title == init[i].title && forall j :: 0 <= j < i ==> init[j].title.None?;
        assert Run(ms).title == ms[i].title;
      }
    }
  }

  /** The open block is the one whose header was not followed by a header or
      an end, with the calls of every line after its header. */
  lemma {:induction false} OpenState(ms: seq<Mark>)
    ensures Run(ms).open.None? <==> forall s: nat :: s < |ms| ==> !OpenFrom(ms, s)
    ensures forall s: nat :: OpenFrom(ms, s) ==> Run(ms).open == Some(BlockAt(ms, s, |ms|))
  {
    if ms != [] {
      var n := |ms| - 1;
      var init, m := ms[..n], ms[n];
      assert ms == init + [m];
      OpenState(init);
      if m.header.Some? {
        OpensHere(init, m);
      } else if Run(init).open.Some? && !m.closes {
        StaysOpen(init, m);
      } else {
        NoneOpen(init, m);
      }
    }
  }

  /** What OpenState says about `ms`. */
  ghost predicate OpenDescribed(ms: seq<Mark>)
  {
    (Run(ms).open.None? <==> forall s: nat :: s < |ms| ==> !OpenFrom(ms, s)) &&
    (forall s: nat :: OpenFrom(ms, s) ==> Run(ms).open == Some(BlockAt(ms, s, |ms|)))
  }

  /** A header earlier than the last line is still unclosed exactly when the
      last line is neither a header nor an end. */
  lemma OpenFromExtends(init: seq<Mark>, m: Mark, s: nat)
    requires s < |init|
    ensures OpenFrom(init + [m], s) <==> OpenFrom(init, s) && m.header.None? && !m.closes
  {
    var ms := init + [m];
    assert forall t :: s < t < |init| ==> ms[t] == init[t];
    assert ms[s] == init[s] && ms[|init|] == m;
  }

  /** A header line opens the block that starts on it. */
  lemma OpensHere(init: seq<Mark>, m: Mark)
    requires m.header.Some?
    ensures OpenDescribed(init + [m])
  {
    var ms, n := init + [m], |init|;
    forall s: nat | s < n
      ensures !OpenFrom(ms, s)
    {
      OpenFromExtends(init, m, s);
    }
    assert ms[..n] == init;
    assert OpenFrom(ms, n);
  }

  /** A body line leaves the block open and adds its calls. */
  lemma StaysOpen(init: seq<Mark>, m: Mark)
    requires OpenDescribed(init)
    requires m.header.None? && Run(init).open.Some? && !m.closes
    ensures OpenDescribed(init + [m])
  {
    var ms, n := init + [m], |init|;
    assert ms[..n] == init;
    forall s: nat | s < n
      ensures OpenFrom(ms, s) <==> OpenFrom(init, s)
    {
      OpenFromExtends(init, m, s);
    }
    forall s: nat | OpenFrom(ms, s)
      ensures Run(ms).open == Some(BlockAt(ms, s, |ms|))
    {
      CallsBetweenPrefix(init, m, s + 1, n);
    }
  }

  /** With no block open, or when an end line closes it, none is open after. */
  lemma NoneOpen(init: seq<Mark>, m: Mark)
    requires OpenDescribed(init)
    requires m.header.None? && (Run(init).open.None? || m.closes)
    ensures OpenDescribed(init + [m])
  {
    var ms, n := init + [m], |init|;
    assert ms[..n] == init;
    forall s: nat | s < |ms|
      ensures !OpenFrom(ms, s)
    {
      if s < n {
        OpenFromExtends(init, m, s);
      }
    }
  }

  /** `b` is the block of a header followed by its end. */
  predicate IsSpanBlock(ms: seq<Mark>, b: Block)
  {
    exists s: nat, e: nat :: s < e < |ms| && Span(ms, s, e) && b == BlockAt(ms, s, e)
  }

  /** Each emitted block is a header followed by its end, with the calls of
      exactly the lines strictly between them. */
  lemma {:induction false} BlocksAreSpans(ms: seq<Mark>)
    ensures forall b :: b in Run(ms).blocks ==> IsSpanBlock(ms, b)
  {
    if ms != [] {
      var n := |ms| - 1;
      var init, m := ms[..n], ms[n];
      assert ms == init + [m];
      BlocksAreSpans(init);
      forall b | b in Run(init).blocks
        ensures IsSpanBlock(ms, b)
      {
        SpanBlockExtends(init, m, b);
      }
      if m.header.None? && Run(init).open.Some? && m.closes {
        ClosedIsSpan(init, m);
      }
    }
  }

  /** A header-to-end block stays one when a line is read after it. */
  lemma SpanBlockExtends(init: seq<Mark>, m: Mark, b: Block)
    requires IsSpanBlock(init, b)
    ensures IsSpanBlock(init + [m], b)
  {
    var ms := init + [m];
    var s: nat, e: nat :| s < e < |init| && Span(init, s, e) && b == BlockAt(init, s, e);
    assert forall t :: s <= t <= e ==> ms[t] == init[t];
    CallsBetweenPrefix(init, m, s + 1, e);
    assert Span(ms, s, e);
  }

  /** An end line closes the open block into a header-to-end block. */
  lemma ClosedIsSpan(init: seq<Mark>, m: Mark)
    requires m.header.None? && Run(init).open.Some? && m.closes
    ensures IsSpanBlock(init + [m], Run(init).open.value)
  {
    var ms, n := init + [m], |init|;
    OpenState(init);
    var s: nat :| s < n && OpenFrom(init, s);
    assert forall t :: s <= t < n ==> ms[t] == init[t];
    CallsBetweenPrefix(init, m, s + 1, n);
    assert Span(ms, s, n);
  }

  /** Every header followed by its end yields an emitted block. */
  lemma {:induction false} SpansAreBlocks(ms: seq<Mark>)
    ensures forall s: nat, e: nat :: Span(ms, s, e) ==> BlockAt(ms, s, e) in Run(ms).blocks
  {
    if ms != [] {
      var n := |ms| - 1;
      var init, m := ms[..n], ms[n];
      assert ms == init + [m];
      SpansAreBlocks(init);
      OpenState(init);
      forall s: nat, e: nat | Span(ms, s, e)
        ensures BlockAt(ms, s, e) in Run(ms).blocks
      {
        if e < n {
          EarlierSpanEmitted(init, m, s, e);
        } else {
          LastSpanEmitted(init, m, s);
        }
      }
    }
  }

  /** What SpansAreBlocks says about `ms`. */
  ghost predicate SpansEmitted(ms: seq<Mark>)
  {
    forall s: nat, e: nat :: Span(ms, s, e) ==> BlockAt(ms, s, e) in Run(ms).blocks
  }

  /** A span that ended before the last line was emitted already. */
  lemma {:induction false} EarlierSpanEmitted(init: seq<Mark>, m: Mark, s: nat, e: nat)
    requires SpansEmitted(init)
    requires Span(init + [m], s, e) && e < |init|
    ensures BlockAt(init + [m], s, e) in Run(init + [m]).blocks
  {
    var ms := init + [m];
    assert forall t :: s <= t <= e ==> ms[t] == init[t];
    assert Span(init, s, e);
    CallsBetweenPrefix(init, m, s + 1, e);
    assert BlockAt(ms, s, e) == BlockAt(init, s, e);
    RunAppend(init, m);
  }

  /** Reading one more line is one more step. */
  lemma RunAppend(init: seq<Mark>, m: Mark)
    ensures Run(init + [m]) == Step(Run(init), m, |init| + 1)
  {
    assert (init + [m])[..|init|] == init;
  }

  /** A span that ends on the last line closes the block open before it. */
  lemma {:induction false} LastSpanEmitted(init: seq<Mark>, m: Mark, s: nat)
    requires OpenDescribed(init)
    requires Span(init + [m], s, |init|)
    ensures BlockAt(init + [m], s, |init|) in Run(init + [m]).blocks
  {
    CallsBetweenPrefix(init, m, s + 1, |init|);
    RunAppend(init, m);
    var ms := init + [m];
    assert forall t :: s <= t < |init| ==> ms[t] == init[t];
    assert OpenFrom(init, s);
  }

  /** Emitted blocks carry strictly increasing line numbers within 1..|ms|,
      all below that of the block still open. */
  lemma {:induction false} LineNumbersIncrease(ms: seq<Mark>)
    ensures forall k :: 0 <= k < |Run(ms).blocks| ==> 1 <= Run(ms).blocks[k].lineNumber <= |ms|
    ensures forall j, k :: 0 <= j < k < |Run(ms).blocks| ==>
      Run(ms).blocks[j].lineNumber < Run(ms).blocks[k].lineNumber
    ensures Run(ms).open.Some? ==> 1 <= Run(ms).open.value.lineNumber <= |ms|
    ensures Run(ms).open.Some? ==> forall k :: 0 <= k < |Run(ms).blocks| ==>
      Run(ms).blocks[k].lineNumber < Run(ms).open.value.lineNumber
  {
    if ms != [] {
      LineNumbersIncrease(ms[..|ms| - 1]);
    }
  }

  /** A block can only be emitted on an end line: a file without end lines
      yields no blocks, however many headers it has. */
  lemma {:induction false} NoEndNoBlocks(ms: seq<Mark>)
    requires forall i :: 0 <= i < |ms| ==> !ms[i].closes
    ensures Run(ms).blocks == []
  {
    if ms != [] {
      NoEndNoBlocks(ms[..|ms| - 1]);
    }
  }

  /** The header at index `s` is still open after the last line: its block
      is never emitted. */
  lemma OpenBlockDropped(ms: seq<Mark>, s: nat)
    requires OpenFrom(ms, s)
    ensures forall b :: b in Run(ms).blocks ==> b.lineNumber != s + 1
  {
    OpenState(ms);
    LineNumbersIncrease(ms);
  }

  // ---------------------------------------------------------------------
  // Call references of one line
  // ---------------------------------------------------------------------

  /** The CALL references for the targets the call pattern found on a line
      whose trimmed text is `trimmed`: one per target, in order, except for
      targets that are the keyword `Call` itself. */
  function CallsFor(targets: seq<string>, trimmed: string): (r: seq<Call>)
    ensures |r| <= |targets|
  {
    if targets == [] then [] else CallFor(targets[0], trimmed) + CallsFor(targets[1..], trimmed)
  }

  /** The reference one call-pattern target adds: none for the keyword
      `Call` itself (compared ignoring case). */
  function CallFor(target: string, trimmed: string): seq<Call>
  {
    if EqualsIgnoreCase(target, "Call") then [] else [Call("CALL", target, trimmed)]
  }

  /** CallsFor keeps exactly the targets other than `Call`, as CALL references
      on the trimmed line. */
  lemma {:induction false} CallsForKeeps(targets: seq<string>, trimmed: string)
    ensures forall c :: c in CallsFor(targets, trimmed) ==>
      c.kind == "CALL" && c.line == trimmed && c.target in targets && !EqualsIgnoreCase(c.target, "Call")
    ensures forall t :: t in targets && !EqualsIgnoreCase(t, "Call") ==> Call("CALL", t, trimmed) in CallsFor(targets, trimmed)
  {
    if targets != [] {
      CallsForKeeps(targets[1..], trimmed);
      assert forall t :: t in targets[1..] ==> t in targets;
      assert forall t :: t in targets ==> t == targets[0] || t in targets[1..];
    }
  }

  lemma CallsForCons(target: string, rest: seq<string>, trimmed: string)
    ensures CallsFor([target] + rest, trimmed) == CallFor(target, trimmed) + CallsFor(rest, trimmed)
  {
    assert ([target] + rest)[1..] == rest;
  }

  lemma TaggedCons(kind: string, target: string, rest: seq<string>, trimmed: string)
    ensures Tagged(kind, [target] + rest, trimmed) == [Call(kind, target, trimmed)] + Tagged(kind, rest, trimmed)
  {
    assert ([target] + rest)[1..] == rest;
  }

  /** One reference of `kind` per target, in order. */
  function Tagged(kind: string, targets: seq<string>, trimmed: string): (r: seq<Call>)
    ensures |r| == |targets|
  {
    if targets == [] then [] else [Call(kind, targets[0], trimmed)] + Tagged(kind, targets[1..], trimmed)
  }

  /** The k-th reference names the k-th target. */
  lemma {:induction false} TaggedAt(kind: string, targets: seq<string>, trimmed: string)
    ensures forall i :: 0 <= i < |targets| ==> Tagged(kind, targets, trimmed)[i] == Call(kind, targets[i], trimmed)
  {
    if targets != [] {
      TaggedAt(kind, targets[1..], trimmed);
    }
  }

  /** The `while (callMatcher.find())` loop of extractCalls, on a line that
      is not blank or a comment and whose trimmed text is `trimmed`. */
  method CollectCalls(line: string, trimmed: string) returns (calls: seq<Call>)
    ensures calls == CallsFor(Targets(CallPattern, line, 0), trimmed)
  {
    calls := [];
    var from := 0;
    var found := Find(CallPattern, line, 0);
    ghost var all := CallsFor(Targets(CallPattern, line, 0), trimmed);
    while found.Some?
      invariant from <= |line|
      invariant found == Find(CallPattern, line, from)
      invariant calls + CallsFor(Targets(CallPattern, line, from), trimmed) == all
      decreases |line| - from
    {
      var target := found.value.target;
      TargetsStep(CallPattern, line, from);
      CallsForCons(target, Targets(CallPattern, line, found.value.end), trimmed);
      calls := calls + CallFor(target, trimmed);
      from := found.value.end;
      found := Find(CallPattern, line, from);
    }
    TargetsStep(CallPattern, line, from);
  }

  /** A `while (matcher.find())` loop that records every match of `pat` as a
      reference of `kind` (the SHOW and LOAD loops of FrmExtractor.extractCalls). */
  method CollectTagged(pat: Pattern, kind: string, line: string, trimmed: string) returns (calls: seq<Call>)
    ensures calls == Tagged(kind, Targets(pat, line, 0), trimmed)
  {
    calls := [];
    var from := 0;
    var found := Find(pat, line, 0);
    ghost var all := Tagged(kind, Targets(pat, line, 0), trimmed);
    while found.Some?
      invariant from <= |line|
      invariant found == Find(pat, line, from)
      invariant calls + Tagged(kind, Targets(pat, line, from), trimmed) == all
      decreases |line| - from
    {
      TargetsStep(pat, line, from);
      TaggedStep(kind, found.value.target, Targets(pat, line, found.value.end), trimmed, calls);
      calls := calls + [Call(kind, found.value.target, trimmed)];
      from := found.value.end;
      found := Find(pat, line, from);
    }
    TargetsStep(pat, line, from);
  }

  /** One turn of CollectTagged's loop keeps its invariant: the first
      remaining target moves from the pending references to the collected ones. */
  lemma TaggedStep(kind: string, target: string, rest: seq<string>, trimmed: string, calls: seq<Call>)
    ensures calls + Tagged(kind, [target] + rest, trimmed)
         == (calls + [Call(kind, target, trimmed)]) + Tagged(kind, rest, trimmed)
  {
    TaggedCons(kind, target, rest, trimmed);
    assert calls + ([Call(kind, target, trimmed)] + Tagged(kind, rest, trimmed))
        == (calls + [Call(kind, target, trimmed)]) + Tagged(kind, rest, trimmed);
  }
}
