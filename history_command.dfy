/** The command-line "history" command: which history entries it shows,
    how it renders a live time and wraps a comment, the addresses it asks
    the site for, and how it decides the outcome of waiting for a token. */
module HistoryCli {
  import opened Common

  /** One entry of a site's history, as the site returns it. */
  datatype HistoryEntry = HistoryEntry(
    index: int,
    kind: string,
    timestamp: int,
    openId: string,
    repoUrl: string,
    branch: string,
    revision: string,
    timeLive: int,
    maintenance: bool,
    revertible: bool,
    finished: bool,
    failed: bool,
    comment: string)

  /* ---------------------------------------------------------------- */
  /* Selecting the entries to show                                     */
  /* ---------------------------------------------------------------- */

  /** The entries that pass the filter: all of them, or the revertible ones. */
  function Passing(h: seq<HistoryEntry>, filter: bool): (p: seq<HistoryEntry>)
    ensures |p| <= |h|
    ensures forall e :: e in p ==> e in h && (!filter || e.revertible)
    ensures forall e :: e in h && (!filter || e.revertible) ==> e in p
  {
    if h == [] then []
    else if !filter || h[0].revertible then [h[0]] + Passing(h[1..], filter)
    else Passing(h[1..], filter)
  }

  /** The entries the display loop prints, step by step as the loop
      decides: a passing entry is printed when there is no limit, or when
      the limit, read and then decremented as a Java `int`, was positive. */
  function Shown(h: seq<HistoryEntry>, filter: bool, limit: Option<int>): (r: seq<HistoryEntry>)
    requires limit.Some? ==> IntMin <= limit.value <= IntMax
    ensures |r| <= |h|
  {
    if h == [] then []
    else if filter && !h[0].revertible then Shown(h[1..], filter, limit)
    else if limit.None? then [h[0]] + Shown(h[1..], filter, limit)
    else if limit.value > 0 then [h[0]] + Shown(h[1..], filter, Some(DecrementInt(limit.value)))
    else Shown(h[1..], filter, Some(DecrementInt(limit.value)))
  }

  /** Whatever the limit, only entries that pass the filter are shown, and
      no more of them than pass. */
  lemma {:induction false} ShownSelectsPassing(h: seq<HistoryEntry>, filter: bool, limit: Option<int>)
    requires limit.Some? ==> IntMin <= limit.value <= IntMax
    ensures forall e :: e in Shown(h, filter, limit) ==> e in h && (!filter || e.revertible)
    ensures |Shown(h, filter, limit)| <= |Passing(h, filter)|
  {
    if h != [] {
      var next := if (!filter || h[0].revertible) && limit.Some? then Some(DecrementInt(limit.value)) else limit;
      ShownSelectsPassing(h[1..], filter, next);
    }
  }

  /** Without a limit every passing entry is shown, in order. */
  lemma {:induction false} ShownUnlimited(h: seq<HistoryEntry>, filter: bool)
    ensures Shown(h, filter, None) == Passing(h, filter)
  {
    if h != [] {
      ShownUnlimited(h[1..], filter);
    }
  }

  /** With nothing passing the filter nothing is shown, whatever the limit. */
  lemma {:induction false} ShownNonePassing(h: seq<HistoryEntry>, filter: bool, limit: Option<int>)
    requires limit.Some? ==> IntMin <= limit.value <= IntMax
    requires Passing(h, filter) == []
    ensures Shown(h, filter, limit) == []
  {
    if h != [] {
      ShownNonePassing(h[1..], filter, limit);
    }
  }

  /** The number of entries a limit of `v` lets through: none for `v <= 0`. */
  function Quota(v: int, available: nat): (n: nat)
    ensures n <= available
    ensures v <= 0 ==> n == 0
    ensures 0 < v <= available ==> n == v
    ensures v >= available ==> n == available
  {
    if v <= 0 then 0 else if v < available then v else available
  }

  /** With a limit `v` the first `v` passing entries are shown (none when
      `v <= 0`); the limit counts passing entries only.  The bound on the
      number of passing entries keeps the decrementing counter clear of
      the `int` wrap-around. */
  lemma {:induction false} ShownLimited(h: seq<HistoryEntry>, filter: bool, v: int)
    requires IntMin <= v <= IntMax
    requires |Passing(h, filter)| <= v - IntMin + 1
    ensures Shown(h, filter, Some(v)) == Passing(h, filter)[..Quota(v, |Passing(h, filter)|)]
  {
    if h == [] {
    } else if filter && !h[0].revertible {
      ShownLimited(h[1..], filter, v);
    } else {
      var p := Passing(h, filter);
      assert p == [h[0]] + Passing(h[1..], filter);
      if v == IntMin {
        ShownNonePassing(h[1..], filter, Some(IntMax));
      } else {
        ShownLimited(h[1..], filter, v - 1);
        if v > 0 {
          assert p[..Quota(v, |p|)] == [h[0]] + Passing(h[1..], filter)[..Quota(v - 1, |p| - 1)];
        }
      }
    }
  }

  /** The wrap-around at the bottom of the `int` range: a limit of
      `Integer.MIN_VALUE` hides the first passing entry, after which the
      counter wraps to `Integer.MAX_VALUE` and every later entry is shown. */
  lemma {:induction false} ShownMinValue(h: seq<HistoryEntry>, filter: bool)
    requires 0 < |Passing(h, filter)| <= IntMax
    ensures Shown(h, filter, Some(IntMin)) == Passing(h, filter)[1..]
  {
    if filter && !h[0].revertible {
      ShownMinValue(h[1..], filter);
    } else {
      ShownLimited(h[1..], filter, IntMax);
    }
  }

  /** One step of the display loop: the first entry is printed or not and
      the limit moves on, and the rest is shown from there. */
  lemma ShownStep(h: seq<HistoryEntry>, filter: bool, limit: Option<int>, printed: bool, next: Option<int>)
    requires h != []
    requires limit.Some? ==> IntMin <= limit.value <= IntMax
    requires printed <==> (!filter || h[0].revertible) && (limit.None? || limit.value > 0)
    requires next == if (!filter || h[0].revertible) && limit.Some? then Some(DecrementInt(limit.value)) else limit
    ensures next.Some? ==> IntMin <= next.value <= IntMax
    ensures Shown(h, filter, limit) == (if printed then [h[0]] else []) + Shown(h[1..], filter, next)
  {
  }

  /** The loop's decision for one entry: whether it is printed, and the
      limit after it (`limitHistory-- > 0`, evaluated only for an entry
      that passes the filter). */
  method Visit(entry: HistoryEntry, filter: bool, limit: Option<int>) returns (printed: bool, next: Option<int>)
    requires limit.Some? ==> IntMin <= limit.value <= IntMax
    ensures printed <==> (!filter || entry.revertible) && (limit.None? || limit.value > 0)
    ensures next == if (!filter || entry.revertible) && limit.Some? then Some(DecrementInt(limit.value)) else limit
  {
    printed := false;
    next := limit;
    if !filter || entry.revertible {
      if limit.None? {
        printed := true;
      } else {
        var count := limit.value;
        next := Some(DecrementInt(count));
        printed := count > 0;
      }
    }
  }

  /** `displayHistory(history, filter, limitHistory)`, without the column
      layout: the entries printed, and whether "No history to show" is
      printed. */
  method DisplayHistory(history: Option<seq<HistoryEntry>>, filter: bool, limitHistory: Option<int>)
    returns (shown: seq<HistoryEntry>, noHistory: bool)
    requires limitHistory.Some? ==> IntMin <= limitHistory.value <= IntMax
    ensures shown == if history.Some? then Shown(history.value, filter, limitHistory) else []
    ensures noHistory <==> shown == []
  {
    shown := [];
    if history.Some? && |history.value| > 0 {
      var rest := history.value;
      var limit := limitHistory;
      var showing := false;
      ghost var target := Shown(rest, filter, limit);
      while rest != []
        invariant limit.Some? ==> IntMin <= limit.value <= IntMax
        invariant shown + Shown(rest, filter, limit) == target
        invariant showing <==> shown != []
      {
        var entry := rest[0];
        ghost var before, limitBefore, todo := shown, limit, Shown(rest, filter, limit);
        var printed;
        printed, limit := Visit(entry, filter, limit);
        ShownStep(rest, filter, limitBefore, printed, limit);
        rest := rest[1..];
        ghost var after := Shown(rest, filter, limit);
        if printed {
          showing := true;
          shown := shown + [entry];
          assert todo == [entry] + after;
          assert shown + after == before + todo;
        } else {
          assert todo == after;
        }
      }
      noHistory := !showing;
    } else {
      noHistory := true;
    }
  }

  /* ---------------------------------------------------------------- */
  /* Rendering a live time                                             */
  /* ---------------------------------------------------------------- */

  const MillisPerSecond: int := 1000
  const MillisPerMinute: int := 60_000
  const MillisPerHour: int := 3_600_000
  const MillisPerDay: int := 86_400_000

  /** `formatTimeLive(timeLive)`: the remainder of milliseconds last, and
      before it seconds, minutes, hours and days, each only while the
      quotient left over is positive.  Java's `/` and `%` throughout. */
  function FormatTimeLive(t: int): (r: string)
    ensures EndsWith(r, DecimalString(JavaRem(t, 1000)) + "ms")
  {
    var ms := DecimalString(JavaRem(t, 1000)) + "ms";
    var t1 := JavaDiv(t, 1000);
    if t1 <= 0 then (EndsWithAppend([], ms); ms)
    else
      var secs := DecimalString(t1 % 60) + "s" + ms;
      var t2 := t1 / 60;
      EndsWithAppend(DecimalString(t1 % 60) + "s", ms);
      if t2 <= 0 then secs
      else
        var mins := DecimalString(t2 % 60) + "m" + secs;
        var t3 := t2 / 60;
        EndsWithExtend(secs, DecimalString(t2 % 60) + "m", ms);
        if t3 <= 0 then mins
        else
          var hours := DecimalString(t3 % 24) + "h" + mins;
          var t4 := t3 / 24;
          EndsWithExtend(mins, DecimalString(t3 % 24) + "h", ms);
          if t4 <= 0 then hours
          else
            EndsWithExtend(hours, DecimalString(t4) + "d", ms);
            DecimalString(t4) + "d" + hours
  }

  /** A non-negative duration split into days, hours, minutes, seconds and
      milliseconds. */
  datatype Span = Span(days: nat, hours: nat, minutes: nat, seconds: nat, millis: nat)

  function Decompose(t: nat): (s: Span)
    ensures s.millis < 1000 && s.seconds < 60 && s.minutes < 60 && s.hours < 24
    ensures s.days * MillisPerDay + s.hours * MillisPerHour + s.minutes * MillisPerMinute
            + s.seconds * MillisPerSecond + s.millis == t
  {
    var sp := Span(t / MillisPerDay, (t / MillisPerHour) % 24, (t / MillisPerMinute) % 60,
                   (t / MillisPerSecond) % 60, t % MillisPerSecond);
    DivisionChain(t);
    sp
  }

  /** A number followed by its unit, or nothing when the unit is not shown. */
  function Part(shown: bool, n: nat, unit: string): string
  {
    if shown then DecimalString(n) + unit else ""
  }

  /** The rendering of a span: a unit is written exactly when the duration
      reaches it. */
  function RenderSpan(t: nat): string
  {
    var s := Decompose(t);
    Part(t >= MillisPerDay, s.days, "d")
    + (Part(t >= MillisPerHour, s.hours, "h")
    + (Part(t >= MillisPerMinute, s.minutes, "m")
    + (Part(t >= MillisPerSecond, s.seconds, "s")
    + (DecimalString(s.millis) + "ms"))))
  }

  /** Repeated division by the unit sizes is division by their product. */
  lemma DivisionChain(t: nat)
    ensures t / 1000 / 60 == t / MillisPerMinute
    ensures t / 1000 / 60 / 60 == t / MillisPerHour
    ensures t / 1000 / 60 / 60 / 24 == t / MillisPerDay
  {
  }

  /** For a non-negative duration the Java rendering is the span rendering:
      the printed numbers are bounded by their unit and add up to the
      duration. */
  lemma FormatTimeLiveSpan(t: nat)
    ensures FormatTimeLive(t) == RenderSpan(t)
  {
    DivisionChain(t);
    var s := Decompose(t);
    var ms := DecimalString(s.millis) + "ms";
    assert JavaRem(t, 1000) == s.millis && JavaDiv(t, 1000) == t / 1000;
    var q1 := t / 1000;
    if t >= MillisPerSecond {
      assert q1 > 0 && q1 % 60 == s.seconds;
      var secs := DecimalString(s.seconds) + "s" + ms;
      if t >= MillisPerMinute {
        assert q1 / 60 > 0 && (q1 / 60) % 60 == s.minutes;
        var mins := DecimalString(s.minutes) + "m" + secs;
        if t >= MillisPerHour {
          assert q1 / 60 / 60 > 0 && (q1 / 60 / 60) % 24 == s.hours;
          var hours := DecimalString(s.hours) + "h" + mins;
          if t >= MillisPerDay {
            assert q1 / 60 / 60 / 24 == s.days > 0;
            assert FormatTimeLive(t) == DecimalString(s.days) + "d" + hours;
          } else {
            assert q1 / 60 / 60 / 24 == 0;
            assert FormatTimeLive(t) == hours;
            assert RenderSpan(t) == "" + hours;
          }
        } else {
          assert q1 / 60 / 60 == 0;
          assert FormatTimeLive(t) == mins;
          assert RenderSpan(t) == "" + ("" + mins);
        }
      } else {
        assert q1 / 60 == 0;
        assert FormatTimeLive(t) == secs;
        assert RenderSpan(t) == "" + ("" + ("" + secs));
      }
    } else {
      assert q1 == 0;
      assert FormatTimeLive(t) == ms;
      assert RenderSpan(t) == "" + ("" + ("" + ("" + ms)));
    }
  }

  /** A negative duration (a clock behind the entry's timestamp) prints
      only Java's non-positive remainder of milliseconds. */
  lemma FormatTimeLiveNegative(t: int)
    requires t < 0
    ensures FormatTimeLive(t) == DecimalString(JavaRem(t, 1000)) + "ms"
    ensures -1000 < JavaRem(t, 1000) <= 0
  {
  }

  /** The live time shown for an entry: a recorded 0 means the entry is
      still live, and its age is measured against `now`. */
  function TimeLiveShown(e: HistoryEntry, now: int): (r: string)
    ensures e.timeLive != 0 ==> r == FormatTimeLive(e.timeLive)
    ensures e.timeLive == 0 ==> r == FormatTimeLive(WrapLong(now - e.timestamp))
  {
    FormatTimeLive(if e.timeLive == 0 then WrapLong(now - e.timestamp) else e.timeLive)
  }

  /* ---------------------------------------------------------------- */
  /* Wrapping a comment                                                */
  /* ---------------------------------------------------------------- */

  /** The widest comment line printed. */
  const Width: nat := 154

  /** The end of the window examined from `index`: `Width` characters on,
      or the end of the comment. */
  function WindowEnd(c: string, index: nat): (end: nat)
    requires index < |c|
    ensures index < end <= |c| && end - index <= Width
  {
    if index + Width <= |c| then index + Width else |c|
  }

  /** Where the segment printed from `index` ends: before the first line
      break of the window unless it opens the window; else at the window's
      end when the character after it is whitespace; else before the
      window's last space unless it opens the window; else at the window's
      end. */
  function Cut(c: string, index: nat): (cut: nat)
    requires index < |c|
    ensures index < cut <= WindowEnd(c, index)
  {
    var end := WindowEnd(c, index);
    var segment := c[index..end];
    var lastChar := if end < |c| then c[end] else ' ';
    if IndexOf(segment, '\n') > 0 then index + IndexOf(segment, '\n')
    else if IsWhitespace(lastChar) then end
    else if LastIndexOf(segment, ' ') > 0 then index + LastIndexOf(segment, ' ')
    else end
  }

  /** Whether the round steps over one character after its segment: the
      window holds a line break or a space at a position other than its
      first. */
  predicate Skips(c: string, index: nat)
    requires index < |c|
  {
    var segment := c[index..WindowEnd(c, index)];
    IndexOf(segment, '\n') > 0 || LastIndexOf(segment, ' ') > 0
  }

  /** One round of the wrapping loop from position `index`: the segment
      printed and the position the next round starts at. */
  function Step(c: string, index: nat): (r: (string, nat))
    requires index < |c|
    ensures index < r.1 <= |c| + 1
  {
    var cut := Cut(c, index);
    (c[index..cut], if Skips(c, index) then cut + 1 else cut)
  }

  /** A round prints a non-empty piece of at most `Width` characters that
      starts where the round starts, and steps over at most one character
      after it, a whitespace character. */
  lemma StepShape(c: string, index: nat)
    requires index < |c|
    ensures var (segment, next) := Step(c, index);
      && 0 < |segment| <= Width
      && index + |segment| <= |c| && segment == c[index..index + |segment|]
      && (next == index + |segment| || next == index + |segment| + 1)
      && (next == index + |segment| + 1 && next <= |c| ==> IsWhitespace(c[index + |segment|]))
  {
  }

  /** The segments `printComments` prints for `c` from position `index` on. */
  function Wrap(c: string, index: nat): (r: seq<string>)
    requires index <= |c| + 1
    ensures index <= |c| ==> |r| <= |c| - index
    ensures forall i :: 0 <= i < |r| ==> 0 < |r[i]| <= Width
    decreases |c| + 1 - index
  {
    if index >= |c| then []
    else
      var (segment, next) := Step(c, index);
      StepShape(c, index);
      [segment] + Wrap(c, next)
  }

  /** `segments` lays `c` out line by line: each segment is non-empty, at
      most `Width` long and the next piece of `c`, and between two pieces
      at most one whitespace character is left out. */
  predicate Tiles(c: string, segments: seq<string>)
    decreases |segments|
  {
    if segments == [] then c == []
    else
      var s := segments[0];
      && 0 < |s| <= Width && |s| <= |c| && c[..|s|] == s
      && (|| Tiles(c[|s|..], segments[1..])
          || (|s| < |c| && IsWhitespace(c[|s|]) && Tiles(c[|s| + 1..], segments[1..])))
  }

  /** The loop always ends, and what it prints tiles the comment. */
  lemma {:induction false} WrapTiles(c: string, index: nat)
    requires index <= |c|
    ensures Tiles(c[index..], Wrap(c, index))
    decreases |c| - index
  {
    if index < |c| {
      var (segment, next) := Step(c, index);
      StepShape(c, index);
      var rest := c[index..];
      assert rest[..|segment|] == segment;
      if next <= |c| {
        WrapTiles(c, next);
      }
      if next == index + |segment| {
        assert rest[|segment|..] == c[next..];
      } else if next <= |c| {
        assert rest[|segment| + 1..] == c[next..];
      } else {
        assert rest[|segment|..] == [];
      }
    }
  }

  /** A blank line right after a line break stays inside the next segment:
      the break at position 0 of a window is not taken as a line end. */
  lemma BlankLineKeptInSegment()
    ensures Wrap("a\n\nb", 0) == ["a", "\nb"]
  {
    var c := "a\n\nb";
    assert WindowEnd(c, 0) == 4;
    assert c[0..4] == c;
    assert c[1..] == "\n\nb";
    assert IndexOf(c[1..], '\n') == 0;
    assert IndexOf(c, '\n') == 1;
    assert Cut(c, 0) == 1;
    assert Skips(c, 0);
    assert c[0..1] == "a";
    assert Step(c, 0) == ("a", 2);
    assert WindowEnd(c, 2) == 4;
    assert c[2..4] == "\nb";
    assert IndexOf(c[2..4], '\n') == 0;
    assert "\nb"[..1] == "\n" && "\nb"[1..] == "b";
    assert LastIndexOf("\nb"[..1], ' ') == -1;
    assert LastIndexOf(c[2..4], ' ') == -1;
    assert Cut(c, 2) == 4;
    assert !Skips(c, 2);
    assert Step(c, 2) == ("\nb", 4);
  }

  /** `printComments(comment)`: the segments printed, one per line. */
  method PrintComments(comment: string) returns (lines: seq<string>)
    ensures lines == Wrap(comment, 0)
    ensures Tiles(comment, lines)
  {
    lines := [];
    var index := 0;
    var nextIndex := Width;
    while index < |comment|
      invariant index <= |comment| + 1
      invariant nextIndex == index + Width
      invariant lines + Wrap(comment, index) == Wrap(comment, 0)
      decreases |comment| + 1 - index
    {
      ghost var start := index;
      var segment;
      segment, index, nextIndex := CommentRound(comment, index, nextIndex);
      ghost var rest := Wrap(comment, index);
      assert Wrap(comment, start) == [segment] + rest;
      assert (lines + [segment]) + rest == lines + ([segment] + rest);
      lines := lines + [segment];
    }
    WrapTiles(comment, 0);
  }

  /** The body of `printComments`'s loop: one segment, and the positions
      the next round works with. */
  method CommentRound(comment: string, index: nat, nextIndex: nat)
    returns (segment: string, index': nat, nextIndex': nat)
    requires index < |comment| && nextIndex == index + Width
    ensures (segment, index') == Step(comment, index)
    ensures nextIndex' == index' + Width
  {
    var windowEnd := if nextIndex <= |comment| then nextIndex else |comment|;
    segment := comment[index..windowEnd];
    var lastSpace := LastIndexOf(segment, ' ');
    var lastNewLine := IndexOf(segment, '\n');
    var lastChar := ' ';
    if windowEnd < |comment| {
      lastChar := comment[windowEnd];
    }
    var cut := windowEnd;
    if lastNewLine > 0 {
      cut := index + lastNewLine;
      segment := comment[index..cut];
    } else if IsWhitespace(lastChar) {
    } else if lastSpace > 0 {
      cut := index + lastSpace;
      segment := comment[index..cut];
    }
    assert cut == Cut(comment, index);
    index' := cut;
    if lastNewLine > 0 || lastSpace > 0 {
      index' := index' + 1;
    }
    nextIndex' := index' + Width;
  }

  /* ---------------------------------------------------------------- */
  /* Addresses                                                         */
  /* ---------------------------------------------------------------- */

  const HistoryPath: string := "/system/history"

  /** The site's history endpoint: the path is added unless the address
      already ends with it. */
  function HistoryUrl(siteUri: string): (r: string)
    ensures EndsWith(r, HistoryPath)
    ensures EndsWith(siteUri, HistoryPath) ==> r == siteUri
    ensures !EndsWith(siteUri, HistoryPath) ==> r == siteUri + HistoryPath
  {
    if EndsWith(siteUri, HistoryPath) then siteUri
    else (EndsWithAppend(siteUri, HistoryPath); siteUri + HistoryPath)
  }

  /** Normalising an address that is already normalised changes nothing. */
  lemma HistoryUrlIdempotent(siteUri: string)
    ensures HistoryUrl(HistoryUrl(siteUri)) == HistoryUrl(siteUri)
  {
  }

  /** The address `waitForToken` polls: the history endpoint, then the
      token (a null token is written "null"), then `since` when given. */
  function TokenUrl(siteUri: string, token: Option<string>, since: Option<int>): (r: string)
    ensures |HistoryUrl(siteUri)| < |r| && r[..|HistoryUrl(siteUri)|] == HistoryUrl(siteUri)
    ensures since.None? ==> r == HistoryUrl(siteUri) + "/" + NullableText(token)
    ensures since.Some? ==> r == HistoryUrl(siteUri) + "/" + NullableText(token) + "/" + DecimalString(since.value)
  {
    var endpoint := HistoryUrl(siteUri);
    var base := endpoint + "/" + NullableText(token);
    assert base[..|endpoint|] == endpoint;
    if since.Some? then
      var r := base + "/" + DecimalString(since.value);
      assert r[..|base|] == base;
      r
    else base
  }

  /** The `since` a token address carries can be read back from its end,
      and the token is the segment between the endpoint and that number. */
  lemma TokenUrlSinceRoundTrip(siteUri: string, token: Option<string>, since: int)
    ensures var r := TokenUrl(siteUri, token, Some(since));
            var tail := DecimalString(since);
            r[|r| - |tail|..] == tail && ParseDecimal(r[|r| - |tail|..]) == since
    ensures var r := TokenUrl(siteUri, token, Some(since));
            var n, m := |HistoryUrl(siteUri)|, |DecimalString(since)|;
            n + 1 <= |r| - m - 1 && r[n + 1..|r| - m - 1] == NullableText(token)
  {
    TokenSegment(HistoryUrl(siteUri), NullableText(token), DecimalString(since));
    DecimalRoundTrip(since);
  }

  /** In `endpoint + "/" + token + "/" + tail` the token sits between the
      two slashes and the tail ends the address. */
  lemma TokenSegment(endpoint: string, token: string, tail: string)
    ensures var r := endpoint + "/" + token + "/" + tail;
            r[|r| - |tail|..] == tail && r[|endpoint| + 1..|r| - |tail| - 1] == token
  {
    var r := endpoint + "/" + token + "/" + tail;
    assert r[|r| - |tail|..] == tail;
    assert r[|endpoint| + 1..] == token + "/" + tail;
  }

  /** The query parameters of the history request, in order. */
  function QueryParameters(limit: int, filter: bool): (q: seq<(string, string)>)
    ensures |q| == (if limit > 0 then 1 else 0) + (if filter then 1 else 0)
    ensures ("limit", DecimalString(limit)) in q <==> limit > 0
    ensures ("filter", "true") in q <==> filter
    ensures forall i :: 0 <= i < |q| ==> q[i].0 == "limit" || q[i].0 == "filter"
  {
    (if limit > 0 then [("limit", DecimalString(limit))] else [])
    + (if filter then [("filter", "true")] else [])
  }

  /* ---------------------------------------------------------------- */
  /* Waiting for a token                                               */
  /* ---------------------------------------------------------------- */

  /** One poll: the clock read at the start of the round, the status code
      and the body of the response (null when it has none). */
  datatype Poll = Poll(time: int, status: int, body: Option<string>)

  datatype WaitOutcome =
    | Completed
    | RemoteFailure(message: string)
    | TimedOut
    /** The given polls ran out before the loop decided. */
    | Undecided

  const StatusOk: int := 200

  /** The site reports the token's command as done. */
  predicate Accepted(body: Option<string>): (r: bool)
    ensures r ==> body.Some? && |Trim(body.value)| == 4
    ensures body == Some("true") || body == Some("TRUE") ==> r
  {
    body.Some? && EqualsIgnoreCase(Trim(body.value), "true")
  }

  /** The message of the exception a failed poll raises. */
  function FailureMessage(body: Option<string>): (m: string)
    ensures body.None? ==> m == "Command failed!"
    ensures body.Some? ==> m == Trim(body.value)
  {
    if body.Some? then Trim(body.value) else "Command failed!"
  }

  /** A poll after which the loop goes on: an OK answer that is not "true",
      taken before the deadline. */
  predicate Retry(p: Poll, deadline: int): (r: bool)
    ensures r ==> p.status == StatusOk && p.time < deadline
    ensures Accepted(p.body) || p.status != StatusOk || p.time >= deadline ==> !r
  {
    p.status == StatusOk && !Accepted(p.body) && p.time < deadline
  }

  /** `waitForToken`'s loop over a given sequence of polls: `used` polls
      are made; all but the last are retries, and the last decides. */
  method WaitForToken(start: int, timeout: int, polls: seq<Poll>) returns (outcome: WaitOutcome, used: nat)
    requires LongMin <= start <= LongMax && LongMin <= timeout <= LongMax
    ensures used <= |polls|
    ensures forall i :: 0 <= i < used - 1 ==> Retry(polls[i], WrapLong(start + timeout))
    ensures outcome.Undecided? <==> used == |polls| && forall i :: 0 <= i < |polls| ==> Retry(polls[i], WrapLong(start + timeout))
    ensures !outcome.Undecided? ==> 0 < used
    ensures outcome.Completed? ==> polls[used - 1].status == StatusOk && Accepted(polls[used - 1].body)
    ensures outcome.RemoteFailure? ==>
      polls[used - 1].status != StatusOk && outcome.message == FailureMessage(polls[used - 1].body)
    ensures outcome.TimedOut? ==>
      polls[used - 1].status == StatusOk && !Accepted(polls[used - 1].body)
      && polls[used - 1].time >= WrapLong(start + timeout)
  {
    var deadline := WrapLong(start + timeout);
    used := 0;
    while used < |polls|
      invariant used <= |polls|
      invariant forall i :: 0 <= i < used ==> Retry(polls[i], deadline)
    {
      var poll := polls[used];
      used := used + 1;
      if poll.status == StatusOk {
        if Accepted(poll.body) {
          return Completed, used;
        }
      } else {
        return RemoteFailure(FailureMessage(poll.body)), used;
      }
      if poll.time >= deadline {
        return TimedOut, used;
      }
    }
    outcome := Undecided;
  }
}
