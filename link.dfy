/**
 * `parse_file` of the page generator: text is cut into plain segments and the link
 * names written as `$link(name)`, and each piece is handed to a callback in order.
 * The callbacks' effect on the caller is modelled as the log of segments they see.
 */
module LinkSplit {
  datatype Option<T> = None | Some(value: T)

  /**
   * A piece handed to a callback, as the span `from..to` of the decoded input: a run of
   * plain text, or the name inside `$link(...)`. The callback receives `s[from..to]`.
   */
  datatype Segment = Text(from: nat, to: nat) | Link(from: nat, to: nat)

  /**
   * A scan of decoded text: the segments handed to the callbacks in order, and
   * `panic`, the index of a marker with no `)` after it at which the `unwrap` of the
   * search for `)` panics, or `None` when the scan returns `Ok(true)`.
   */
  datatype Run = Run(segments: seq<Segment>, panic: Option<nat>)

  /** How `parse_file` ends: `Ok(false)` for input that is not UTF-8, or a scan. */
  datatype Outcome = NotUtf8 | Ran(run: Run)

  const MARKER: string := "$link("

  // ---------------------------------------------------------------------------
  // Searching

  /** `pat` occurs in `s` at index `k`. */
  predicate At(s: string, pat: string, k: nat)
  {
    k + |pat| <= |s| && forall i :: 0 <= i < |pat| ==> s[k + i] == pat[i]
  }

  /** `pat` matches `s` from index `k` on, compared character by character from `pat[i]`. */
  predicate MatchFrom(s: string, pat: string, k: nat, i: nat)
    decreases |pat| - i
  {
    i >= |pat| || (k + i < |s| && s[k + i] == pat[i] && MatchFrom(s, pat, k, i + 1))
  }

  lemma {:induction false} MatchFromAll(s: string, pat: string, k: nat, i: nat)
    requires i <= |pat| && k + |pat| <= |s|
    ensures MatchFrom(s, pat, k, i) <==> forall j :: i <= j < |pat| ==> s[k + j] == pat[j]
    decreases |pat| - i
  {
    if i < |pat| {
      MatchFromAll(s, pat, k, i + 1);
    }
  }

  /** Where `pat` fits in `s`, the comparison from `k` on decides whether it occurs there. */
  lemma MatchAt(s: string, pat: string, k: nat)
    requires k + |pat| <= |s|
    ensures MatchFrom(s, pat, k, 0) <==> At(s, pat, k)
  {
    MatchFromAll(s, pat, k, 0);
  }

  /** The first index from `k` on where `pat` occurs in `s`. */
  function FindFrom(s: string, pat: string, k: nat): (r: Option<nat>)
    ensures r.Some? ==> k <= r.value && r.value + |pat| <= |s|
    decreases |s| - k
  {
    if k + |pat| > |s| then None
    else if MatchFrom(s, pat, k, 0) then Some(k)
    else FindFrom(s, pat, k + 1)
  }

  /** `FindFrom` finds an occurrence, and no earlier one; `None` means there is none. */
  lemma {:induction false} FindFromSpec(s: string, pat: string, k: nat)
    ensures FindFrom(s, pat, k).Some? ==> At(s, pat, FindFrom(s, pat, k).value)
    ensures FindFrom(s, pat, k).Some? ==> forall j :: k <= j < FindFrom(s, pat, k).value ==> !At(s, pat, j)
    ensures FindFrom(s, pat, k).None? ==> forall j :: k <= j ==> !At(s, pat, j)
    decreases |s| - k
  {
    if k + |pat| <= |s| {
      MatchAt(s, pat, k);
      if !At(s, pat, k) {
        FindFromSpec(s, pat, k + 1);
      }
    }
  }

  /** `str::find`: the first index where `pat` occurs in `s`. */
  function Find(s: string, pat: string): (r: Option<nat>)
  {
    FindFrom(s, pat, 0)
  }

  /**
   * `s[pos..].find(pat)`, shifted by `pos`, is the search from `pos` on: the cursor
   * arithmetic of `parse_file` is `FindFrom` on the whole text.
   */
  lemma FindShift(s: string, pat: string, pos: nat)
    requires pos <= |s|
    ensures FindFrom(s, pat, pos).None? <==> Find(s[pos..], pat).None?
    ensures FindFrom(s, pat, pos).Some? ==> FindFrom(s, pat, pos).value == Find(s[pos..], pat).value + pos
  {
    var t := s[pos..];
    forall j: nat
      ensures At(t, pat, j) <==> At(s, pat, pos + j)
    {
      if j + |pat| <= |t| {
        forall x | j <= x < j + |pat|
          ensures t[x] == s[pos + x]
        {
        }
      }
    }
    FindFromSpec(s, pat, pos);
    FindFromSpec(t, pat, 0);
    var a, b := FindFrom(s, pat, pos), Find(t, pat);
    if a.Some? {
      assert At(t, pat, a.value - pos);
    }
    if b.Some? {
      assert At(s, pat, pos + b.value);
    }
  }

  /** No closing parenthesis from index `k` on. */
  predicate NoClose(s: string, k: nat)
  {
    forall j :: k <= j < |s| ==> s[j] != ')'
  }

  /** `)` occurs at `j` exactly when `s[j]` is `)`. */
  lemma AtClose(s: string, j: nat)
    ensures At(s, ")", j) <==> j < |s| && s[j] == ')'
  {
    if j < |s| {
      assert ")"[0] == ')';
      if s[j] == ')' {
        forall i | 0 <= i < 1
          ensures s[j + i] == ")"[i]
        {
          assert i == 0;
        }
      } else {
        assert s[j + 0] != ")"[0];
      }
    }
  }

  /** The first `)` from `idx` on, with what that says about the characters before it. */
  lemma CloseFound(s: string, idx: nat)
    ensures FindFrom(s, ")", idx).Some? ==> var end := FindFrom(s, ")", idx).value;
      end < |s| && s[end] == ')' && forall j :: idx <= j < end ==> s[j] != ')'
    ensures FindFrom(s, ")", idx).None? <==> NoClose(s, idx)
  {
    FindFromSpec(s, ")", idx);
    forall j | idx <= j < |s|
      ensures At(s, ")", j) <==> s[j] == ')'
    {
      AtClose(s, j);
    }
  }

  /** A marker holds no `)`, so the link opened by the first marker from `pos` ends after it. */
  lemma MarkerOpen(s: string, pos: nat)
    requires FindFrom(s, MARKER, pos).Some?
    ensures var idx := FindFrom(s, MARKER, pos).value;
      At(s, MARKER, idx) &&
      (FindFrom(s, ")", idx).Some? ==> idx + |MARKER| <= FindFrom(s, ")", idx).value)
  {
    var idx := FindFrom(s, MARKER, pos).value;
    FindFromSpec(s, MARKER, pos);
    CloseFound(s, idx);
    forall j | idx <= j < idx + |MARKER|
      ensures s[j] != ')'
    {
      assert s[idx + (j - idx)] == MARKER[j - idx];
    }
  }

  // ---------------------------------------------------------------------------
  // The scan

  /** The loop of `parse_file` from the cursor `pos` on, over decoded text `s`. */
  function Split(s: string, pos: nat): (r: Run)
    requires pos <= |s|
    ensures forall k :: 0 <= k < |r.segments| ==> pos <= r.segments[k].from && r.segments[k].to <= |s|
    ensures r.panic.Some? ==> pos <= r.panic.value < |s|
    decreases |s| - pos
  {
    match FindFrom(s, MARKER, pos)
    case None => Run([Text(pos, |s|)], None)
    case Some(idx) =>
      match FindFrom(s, ")", idx)
      case None => Run([], Some(idx))
      case Some(end) =>
        Run([Text(pos, idx), Link(idx + |MARKER|, end)] + Split(s, end + 1).segments, Split(s, end + 1).panic)
  }

  /** `parse_file` on the input: `None` stands for bytes that are not UTF-8. */
  function Parse(input: Option<string>): (r: Outcome)
    ensures r.NotUtf8? <==> input.None?
    ensures r.Ran? ==> forall k :: 0 <= k < |r.run.segments| ==> r.run.segments[k].to <= |input.value|
  {
    match input
    case None => NotUtf8
    case Some(s) => Ran(Split(s, 0))
  }

  /** From the cursor `pos`, the next marker is at `idx` and the first `)` after it at `end`. */
  predicate Closed(s: string, pos: nat, idx: nat, end: nat)
  {
    FindFrom(s, MARKER, pos) == Some(idx) && FindFrom(s, ")", idx) == Some(end)
  }

  /** No marker from the cursor on: the rest of the input is the last text. */
  lemma SplitTail(s: string, pos: nat)
    requires pos <= |s| && FindFrom(s, MARKER, pos).None?
    ensures Split(s, pos) == Run([Text(pos, |s|)], None)
  {
  }

  /** The next marker has no `)` after it: the scan panics there, handing out nothing more. */
  lemma SplitStuck(s: string, pos: nat)
    requires pos <= |s| && FindFrom(s, MARKER, pos).Some?
    requires FindFrom(s, ")", FindFrom(s, MARKER, pos).value).None?
    ensures Split(s, pos) == Run([], Some(FindFrom(s, MARKER, pos).value))
  {
  }

  /** The next marker is closed: a text and a link, then the scan from after the `)`. */
  lemma SplitLink(s: string, pos: nat, idx: nat, end: nat)
    requires pos <= |s| && Closed(s, pos, idx, end)
    ensures pos <= idx && idx + |MARKER| <= end < |s|
    ensures Split(s, pos).segments == [Text(pos, idx), Link(idx + |MARKER|, end)] + Split(s, end + 1).segments
    ensures Split(s, pos).panic == Split(s, end + 1).panic
  {
    MarkerOpen(s, pos);
  }

  /** The scan `rest` after the callbacks have already seen `log`. */
  function Resumed(log: seq<Segment>, rest: Run): Run
  {
    Run(log + rest.segments, rest.panic)
  }

  /** The callbacks have seen `log`, and the scan from `pos` completes it into `whole`. */
  predicate Continues(s: string, pos: nat, log: seq<Segment>, whole: Run)
  {
    pos <= |s| && Resumed(log, Split(s, pos)) == whole
  }

  /** No marker left: the last text completes the log into the whole scan. */
  lemma LogTail(s: string, pos: nat, log: seq<Segment>, whole: Run)
    requires Continues(s, pos, log, whole) && FindFrom(s, MARKER, pos).None?
    ensures Run(log + [Text(pos, |s|)], None) == whole
  {
    SplitTail(s, pos);
  }

  /** An unclosed marker: the log so far is the whole scan, which panics at the marker. */
  lemma LogStuck(s: string, pos: nat, idx: nat, log: seq<Segment>, whole: Run)
    requires Continues(s, pos, log, whole)
    requires FindFrom(s, MARKER, pos) == Some(idx) && FindFrom(s, ")", idx).None?
    ensures Run(log, Some(idx)) == whole
  {
    SplitStuck(s, pos);
    assert log + [] == log;
  }

  /** A closed link: the log grows by a text and a link, and the scan resumes after the `)`. */
  lemma LogLink(s: string, pos: nat, idx: nat, end: nat, log: seq<Segment>, next: seq<Segment>, whole: Run)
    requires Continues(s, pos, log, whole) && Closed(s, pos, idx, end)
    requires next == log + [Text(pos, idx), Link(idx + |MARKER|, end)]
    ensures pos <= end
    ensures Continues(s, end + 1, next, whole)
  {
    SplitLink(s, pos, idx, end);
    var pair := [Text(pos, idx), Link(idx + |MARKER|, end)];
    assert log + (pair + Split(s, end + 1).segments) == (log + pair) + Split(s, end + 1).segments;
  }

  /** Where the next closed link sits in the input. */
  lemma LinkAt(s: string, pos: nat, idx: nat, end: nat)
    requires Closed(s, pos, idx, end)
    ensures pos <= idx && idx + |MARKER| <= end < |s|
    ensures At(s, MARKER, idx) && s[end] == ')'
    ensures forall j :: idx <= j < end ==> s[j] != ')'
  {
    MarkerOpen(s, pos);
    CloseFound(s, idx);
  }

  /**
   * `parse_file`, with the callbacks appending the spans they receive to a log.
   * `FindFrom(s, p, pos)` is `mapstr[pos..].find(p)` plus `pos` (`FindShift`).
   */
  method ParseFile(input: Option<string>) returns (r: Outcome)
    ensures r == Parse(input)
  {
    if input.None? {
      return NotUtf8;
    }
    var s := input.value;
    assert [] + Split(s, 0).segments == Split(s, 0).segments;
    var run := Scan(s, Split(s, 0));
    return Ran(run);
  }

  /** The loop of `ParseFile`: reports every span of `s`, in order, until the input ends or a link is left open. */
  method Scan(s: string, ghost whole: Run) returns (r: Run)
    requires Continues(s, 0, [], whole)
    ensures r == whole
  {
    var pos := 0;
    var log: seq<Segment> := [];
    while true
      invariant Continues(s, pos, log, whole)
      decreases |s| - pos
    {
      var found := FindFrom(s, MARKER, pos);
      if found.None? {
        LogTail(s, pos, log, whole);
        return Run(log + [Text(pos, |s|)], None);
      }
      var idx := found.value;
      var close := FindFrom(s, ")", idx);
      if close.None? {
        LogStuck(s, pos, idx, log, whole);
        return Run(log, Some(idx));
      }
      var end := close.value;
      var next := log + [Text(pos, idx), Link(idx + |MARKER|, end)];
      LogLink(s, pos, idx, end, log, next, whole);
      log, pos := next, end + 1;
    }
  }

  // ---------------------------------------------------------------------------
  // What the segments say about the input

  /** The string a callback receives for a segment. */
  function Content(s: string, seg: Segment): string
  {
    if seg.from <= seg.to <= |s| then s[seg.from..seg.to] else ""
  }

  /** The input a segment stands for: a text as it is, a link name with its marker and `)` put back. */
  function Piece(s: string, seg: Segment): string
  {
    if seg.Text? then Content(s, seg) else MARKER + Content(s, seg) + ")"
  }

  /** The segments put back together. */
  function Join(s: string, segments: seq<Segment>): string
  {
    if segments == [] then "" else Piece(s, segments[0]) + Join(s, segments[1..])
  }

  lemma Assoc<T>(a: seq<T>, b: seq<T>, c: seq<T>)
    ensures a + (b + c) == (a + b) + c
  {
  }

  /** Adjacent slices of a sequence make up the slice that spans them. */
  lemma Slices<T>(s: seq<T>, a: nat, b: nat, c: nat)
    requires a <= b <= c <= |s|
    ensures s[a..c] == s[a..b] + s[b..c]
  {
  }

  /** The input from `pos` through a closed link is the text, then the marker, the name and the `)`. */
  lemma ClosedSpan(s: string, pos: nat, idx: nat, end: nat)
    requires pos <= idx && At(s, MARKER, idx) && idx + |MARKER| <= end < |s| && s[end] == ')'
    ensures s[pos..end + 1] == s[pos..idx] + (MARKER + s[idx + |MARKER|..end] + ")")
  {
    assert s[idx..idx + |MARKER|] == MARKER;
    assert s[end..end + 1] == ")";
    Slices(s, idx, idx + |MARKER|, end);
    Slices(s, idx, end, end + 1);
    Slices(s, pos, idx, end + 1);
  }

  /**
   * Where segments laid out from `pos` lead: each text is followed by a marker and
   * a link name closed by `)` (or ends the list), and the next text starts right after
   * that `)`. `Some(c)` is the cursor after the last segment; `None` means the segments
   * are not laid out this way.
   */
  function Layout(s: string, pos: nat, segments: seq<Segment>): (r: Option<nat>)
    ensures r.Some? ==> pos <= r.value
    decreases |segments|
  {
    if |segments| == 0 then Some(pos)
    else if !segments[0].Text? || segments[0].from != pos || !(pos <= segments[0].to <= |s|) then None
    else if |segments| == 1 then Some(segments[0].to)
    else
      var idx, link := segments[0].to, segments[1];
      if link.Link? && link.from == idx + |MARKER| && link.from <= link.to < |s| && At(s, MARKER, idx) && s[link.to] == ')'
      then Layout(s, link.to + 1, segments[2..])
      else None
  }

  /** A text and a closed link in place: the layout carries on after the `)`. */
  lemma LayoutPair(s: string, pos: nat, idx: nat, end: nat, rest: seq<Segment>)
    requires pos <= idx && idx + |MARKER| <= end < |s| && At(s, MARKER, idx) && s[end] == ')'
    ensures Layout(s, pos, [Text(pos, idx), Link(idx + |MARKER|, end)] + rest) == Layout(s, end + 1, rest)
  {
    var segments := [Text(pos, idx), Link(idx + |MARKER|, end)] + rest;
    assert segments[0] == Text(pos, idx) && segments[1] == Link(idx + |MARKER|, end) && segments[2..] == rest;
  }

  /**
   * The segments of a scan are laid out from the cursor: to the end of the input when
   * it finishes, and up to at most the unclosed marker when it panics.
   */
  lemma {:induction false} SplitLayout(s: string, pos: nat)
    requires pos <= |s|
    ensures Layout(s, pos, Split(s, pos).segments).Some?
    ensures Split(s, pos).panic.None? ==> Layout(s, pos, Split(s, pos).segments).value == |s|
    ensures Split(s, pos).panic.Some? ==> Layout(s, pos, Split(s, pos).segments).value <= Split(s, pos).panic.value
    decreases |s| - pos
  {
    var found := FindFrom(s, MARKER, pos);
    if found.None? {
      SplitTail(s, pos);
      assert [Text(pos, |s|)][0] == Text(pos, |s|);
    } else if FindFrom(s, ")", found.value).None? {
      SplitStuck(s, pos);
    } else {
      var idx := found.value;
      var end := FindFrom(s, ")", idx).value;
      LinkAt(s, pos, idx, end);
      SplitLink(s, pos, idx, end);
      SplitLayout(s, end + 1);
      LayoutPair(s, pos, idx, end, Split(s, end + 1).segments);
    }
  }

  /** Segments laid out from `pos` to `c` put back together are the input from `pos` to `c`. */
  lemma {:induction false} LayoutJoin(s: string, pos: nat, segments: seq<Segment>)
    requires Layout(s, pos, segments).Some? && Layout(s, pos, segments).value <= |s|
    ensures Join(s, segments) == s[pos..Layout(s, pos, segments).value]
    decreases |segments|
  {
    var stop := Layout(s, pos, segments).value;
    if |segments| == 0 {
      assert Join(s, segments) == "";
    } else if |segments| == 1 {
      assert Piece(s, segments[0]) == s[pos..stop] && segments[1..] == [];
      assert Join(s, segments) == s[pos..stop] + Join(s, []);
    } else {
      var idx, end, rest := segments[0].to, segments[1].to, segments[2..];
      assert segments == [Text(pos, idx), Link(idx + |MARKER|, end)] + rest;
      assert Layout(s, end + 1, rest) == Layout(s, pos, segments);
      LayoutJoin(s, end + 1, rest);
      JoinLink(s, pos, idx, end, stop, rest);
    }
  }

  /** A text, a marker, a link name, a `)` and the rest after it spell the input from `pos`. */
  lemma SpellPair(s: string, pos: nat, idx: nat, end: nat, stop: nat)
    requires pos <= idx && At(s, MARKER, idx) && idx + |MARKER| <= end < stop <= |s| && s[end] == ')'
    ensures s[pos..idx] + ((MARKER + s[idx + |MARKER|..end] + ")") + s[end + 1..stop]) == s[pos..stop]
  {
    ClosedSpan(s, pos, idx, end);
    Assoc(s[pos..idx], MARKER + s[idx + |MARKER|..end] + ")", s[end + 1..stop]);
    Slices(s, pos, end + 1, stop);
  }

  lemma JoinCons(s: string, seg: Segment, rest: seq<Segment>)
    ensures Join(s, [seg] + rest) == Piece(s, seg) + Join(s, rest)
  {
    assert ([seg] + rest)[0] == seg && ([seg] + rest)[1..] == rest;
  }

  /** A text and a closed link in front of segments that spell `s[end + 1..stop]` spell `s[pos..stop]`. */
  lemma JoinLink(s: string, pos: nat, idx: nat, end: nat, stop: nat, rest: seq<Segment>)
    requires pos <= idx && At(s, MARKER, idx) && idx + |MARKER| <= end < stop <= |s| && s[end] == ')'
    requires Join(s, rest) == s[end + 1..stop]
    ensures Join(s, [Text(pos, idx), Link(idx + |MARKER|, end)] + rest) == s[pos..stop]
  {
    var text, link := Text(pos, idx), Link(idx + |MARKER|, end);
    assert [text, link] + rest == [text] + ([link] + rest);
    JoinCons(s, text, [link] + rest);
    JoinCons(s, link, rest);
    assert Piece(s, text) == s[pos..idx];
    assert Piece(s, link) == MARKER + s[idx + |MARKER|..end] + ")";
    SpellPair(s, pos, idx, end, stop);
  }

  /** The segments of a finished parse put back together are the input. */
  lemma SplitJoins(s: string, pos: nat)
    requires pos <= |s|
    ensures Split(s, pos).panic.None? ==> Join(s, Split(s, pos).segments) == s[pos..]
  {
    SplitLayout(s, pos);
    if Split(s, pos).panic.None? {
      LayoutJoin(s, pos, Split(s, pos).segments);
      assert s[pos..|s|] == s[pos..];
    }
  }

  /** A panic strikes at a marker from the cursor on that has no `)` after it. */
  lemma {:induction false} SplitPanics(s: string, pos: nat)
    requires pos <= |s|
    ensures Split(s, pos).panic.Some? ==> var at := Split(s, pos).panic.value;
      pos <= at && At(s, MARKER, at) && NoClose(s, at)
    decreases |s| - pos
  {
    var found := FindFrom(s, MARKER, pos);
    if found.None? {
      SplitTail(s, pos);
    } else if FindFrom(s, ")", found.value).None? {
      SplitStuck(s, pos);
      FindFromSpec(s, MARKER, pos);
      CloseFound(s, found.value);
    } else {
      var idx := found.value;
      var end := FindFrom(s, ")", idx).value;
      SplitLink(s, pos, idx, end);
      SplitPanics(s, end + 1);
    }
  }

  /**
   * Before a panic, the segments put back together are the input from `pos` up to a
   * cursor `c` at or before the marker that is never closed.
   */
  lemma SplitPrefix(s: string, pos: nat)
    requires pos <= |s|
    ensures Split(s, pos).panic.Some? ==> var c := Layout(s, pos, Split(s, pos).segments);
      c.Some? && pos <= c.value <= Split(s, pos).panic.value <= |s| &&
      Join(s, Split(s, pos).segments) == s[pos..c.value]
  {
    SplitLayout(s, pos);
    SplitPanics(s, pos);
    if Split(s, pos).panic.Some? {
      LayoutJoin(s, pos, Split(s, pos).segments);
    }
  }

  /** No marker lies wholly inside the span `from..to` of `s`. */
  predicate MarkerFree(s: string, from: nat, to: nat)
  {
    forall k :: from <= k && k + |MARKER| <= to ==> !At(s, MARKER, k)
  }

  /** No `)` inside the span `from..to` of `s`. */
  predicate CloseFree(s: string, from: nat, to: nat)
  {
    forall j :: from <= j < to && j < |s| ==> s[j] != ')'
  }

  /** A text segment within `s` holding no marker. */
  predicate CleanText(s: string, seg: Segment)
  {
    seg.Text? && seg.from <= seg.to <= |s| && MarkerFree(s, seg.from, seg.to)
  }

  /** A link segment within `s` whose name holds no `)`. */
  predicate CleanLink(s: string, seg: Segment)
  {
    seg.Link? && seg.from <= seg.to <= |s| && CloseFree(s, seg.from, seg.to)
  }

  /**
   * Segments in callback order: text and link alternate, starting with text, every
   * text clean and every link name clean.
   */
  predicate Alternating(s: string, segments: seq<Segment>)
    decreases |segments|
  {
    |segments| == 0 ||
    (CleanText(s, segments[0]) &&
     (|segments| == 1 || (CleanLink(s, segments[1]) && Alternating(s, segments[2..]))))
  }

  /** A clean text and a clean link in front of an alternating run keep it alternating. */
  lemma AlternatingPair(s: string, text: Segment, link: Segment, rest: seq<Segment>)
    requires CleanText(s, text) && CleanLink(s, link) && Alternating(s, rest)
    ensures Alternating(s, [text, link] + rest)
  {
    var segments := [text, link] + rest;
    assert segments[0] == text && segments[1] == link && segments[2..] == rest;
  }

  lemma Parity(n: nat)
    ensures (n + 2) % 2 == 1 <==> n % 2 == 1
  {
  }

  /** The text before the next closed link holds no marker, and the link's name no `)`. */
  lemma PairClean(s: string, pos: nat, idx: nat, end: nat)
    requires Closed(s, pos, idx, end)
    ensures pos <= idx && idx + |MARKER| <= end < |s|
    ensures CleanText(s, Text(pos, idx)) && CleanLink(s, Link(idx + |MARKER|, end))
  {
    LinkAt(s, pos, idx, end);
    FindFromSpec(s, MARKER, pos);
  }

  /** The callbacks run text, link, text, link, …, every text and every link name clean. */
  lemma {:induction false} SplitAlternates(s: string, pos: nat)
    requires pos <= |s|
    ensures Alternating(s, Split(s, pos).segments)
    decreases |s| - pos
  {
    var found := FindFrom(s, MARKER, pos);
    if found.None? {
      SplitTail(s, pos);
      FindFromSpec(s, MARKER, pos);
      assert [Text(pos, |s|)][0] == Text(pos, |s|);
    } else if FindFrom(s, ")", found.value).None? {
      SplitStuck(s, pos);
    } else {
      var idx := found.value;
      var end := FindFrom(s, ")", idx).value;
      SplitLink(s, pos, idx, end);
      PairClean(s, pos, idx, end);
      SplitAlternates(s, end + 1);
      AlternatingPair(s, Text(pos, idx), Link(idx + |MARKER|, end), Split(s, end + 1).segments);
    }
  }

  /**
   * A finished parse makes an odd number of calls, ending with the final text; a panic
   * strikes after a link, or before any call.
   */
  lemma {:induction false} SplitParity(s: string, pos: nat)
    requires pos <= |s|
    ensures |Split(s, pos).segments| % 2 == 1 <==> Split(s, pos).panic.None?
    decreases |s| - pos
  {
    var found := FindFrom(s, MARKER, pos);
    if found.None? {
      SplitTail(s, pos);
    } else if FindFrom(s, ")", found.value).None? {
      SplitStuck(s, pos);
    } else {
      var idx := found.value;
      var end := FindFrom(s, ")", idx).value;
      SplitLink(s, pos, idx, end);
      SplitParity(s, end + 1);
      Parity(|Split(s, end + 1).segments|);
    }
  }

  /** Some marker appears in `t`. */
  predicate HasMarker(t: string)
  {
    exists j :: 0 <= j < |t| && At(t, MARKER, j)
  }

  /** What the callbacks receive: a clean text holds no marker, a clean link name no `)`. */
  lemma CleanContent(s: string, seg: Segment)
    ensures CleanText(s, seg) ==> !HasMarker(Content(s, seg))
    ensures CleanLink(s, seg) ==> ')' !in Content(s, seg)
  {
    if seg.from <= seg.to <= |s| {
      var t := Content(s, seg);
      assert t == s[seg.from..seg.to];
      forall j | 0 <= j < |t| && At(t, MARKER, j)
        ensures At(s, MARKER, seg.from + j)
      {
        forall x | j <= x < j + |MARKER|
          ensures t[x] == s[seg.from + x]
        {
        }
      }
      forall x | 0 <= x < |t|
        ensures t[x] == s[seg.from + x]
      {
      }
    }
  }

  /** A marker from the cursor on with no `)` after it makes the scan panic. */
  lemma {:induction false} MarkerUnclosed(s: string, pos: nat, k: nat)
    requires pos <= k && At(s, MARKER, k) && NoClose(s, k)
    ensures Split(s, pos).panic.Some?
    decreases |s| - pos
  {
    FindFromSpec(s, MARKER, pos);
    var found := FindFrom(s, MARKER, pos);
    assert found.Some?;
    if FindFrom(s, ")", found.value).None? {
      SplitStuck(s, pos);
    } else {
      var idx := found.value;
      var end := FindFrom(s, ")", idx).value;
      LinkAt(s, pos, idx, end);
      assert end < k;
      SplitLink(s, pos, idx, end);
      MarkerUnclosed(s, end + 1, k);
    }
  }

  /**
   * `parse_file` panics exactly when, from the cursor on, some marker has no `)`
   * anywhere after it.
   */
  lemma {:induction false} UnclosedExactly(s: string, pos: nat)
    requires pos <= |s|
    ensures Split(s, pos).panic.Some? <==> exists k :: pos <= k && At(s, MARKER, k) && NoClose(s, k)
  {
    SplitPanics(s, pos);
    if k :| pos <= k && At(s, MARKER, k) && NoClose(s, k) {
      MarkerUnclosed(s, pos, k);
    }
  }
}
