/**
 * The log analyzer (`LogAnalyzer.analyze` in log_analyzer.py): the text is stripped and split
 * into lines; each line is matched against the pattern
 *   word, whitespace, `YYYY-MM-DD hh:mm:ss`, whitespace, `-`, whitespace, `LEVEL:`, whitespace, message
 * (anchored at the start of the line); levels are upper-cased and counted, and the messages
 * at ERROR, WARNING and INFO are tallied and ranked, five per list.
 */
module LogAnalysis {

  import opened Wrappers
  import opened Counting
  import opened Ranking

  const TOP_N: nat := 5
  const ERROR: string := "ERROR"
  const WARNING: string := "WARNING"
  const INFO: string := "INFO"

  // ---------------------------------------------------------------------------------------
  // Character classes

  /** Python's whitespace (`str.isspace`, and `\s` in a text pattern). */
  predicate IsSpace(c: char)
  {
    || ('\t' <= c <= '\r')
    || ('\U{1c}' <= c <= ' ')
    || c == '\U{85}' || c == '\U{a0}' || c == '\U{1680}'
    || ('\U{2000}' <= c <= '\U{200a}')
    || c == '\U{2028}' || c == '\U{2029}' || c == '\U{202f}' || c == '\U{205f}' || c == '\U{3000}'
  }

  predicate IsDigit(c: char)
  {
    '0' <= c <= '9'
  }

  /** `\w`: a letter, a digit or the underscore. */
  predicate IsWordChar(c: char)
  {
    ('a' <= c <= 'z') || ('A' <= c <= 'Z') || IsDigit(c) || c == '_'
  }

  predicate IsLower(c: char)
  {
    'a' <= c <= 'z'
  }

  /** Upper-cases the ASCII letters of `s`. */
  function Upper(s: string): (r: string)
    ensures |r| == |s|
    ensures forall i :: 0 <= i < |s| ==> r[i] == if IsLower(s[i]) then (s[i] as int - 32) as char else s[i]
    ensures forall i :: 0 <= i < |r| ==> !IsLower(r[i])
  {
    if s == [] then []
    else [if IsLower(s[0]) then (s[0] as int - 32) as char else s[0]] + Upper(s[1..])
  }

  // ---------------------------------------------------------------------------------------
  // strip() and split('\n')

  /**
   * Where the trailing whitespace of `s[lo..hi]` begins: scanning back from `hi` past
   * whitespace, stopping at `lo`.
   */
  function TrailStart(s: string, lo: nat, hi: nat): (j: nat)
    requires lo <= hi <= |s|
    ensures lo <= j <= hi
    ensures forall k :: j <= k < hi ==> IsSpace(s[k])
    ensures j == lo || !IsSpace(s[j - 1])
    decreases hi
  {
    if hi > lo && IsSpace(s[hi - 1]) then TrailStart(s, lo, hi - 1) else hi
  }

  /** Python's `s.strip()`: the text between its leading and its trailing whitespace. */
  function Strip(s: string): string
  {
    var start := Span(s, 0, Space);
    s[start..TrailStart(s, start, |s|)]
  }

  /**
   * `strip()` keeps one contiguous piece of the text and removes only whitespace around it:
   * everything before and after the piece is whitespace, and the piece neither starts nor ends
   * with whitespace, so an all-blank text strips to "".
   */
  lemma StripTrims(s: string)
    ensures var start := Span(s, 0, Space); var end := TrailStart(s, start, |s|);
      && Strip(s) == s[start..end]
      && (forall k :: 0 <= k < start ==> IsSpace(s[k]))
      && (forall k :: end <= k < |s| ==> IsSpace(s[k]))
    ensures Strip(s) == [] || (!IsSpace(Strip(s)[0]) && !IsSpace(Strip(s)[|Strip(s)| - 1]))
  {
    var start := Span(s, 0, Space);
    SpanIsRun(s, 0, Space);
    var end := TrailStart(s, start, |s|);
    if start < end {
      assert Strip(s)[0] == s[start];
      assert Strip(s)[|Strip(s)| - 1] == s[end - 1];
    }
  }

  /** Python's `s.split('\n')`: the pieces between newlines; at least one piece, even for "". */
  function Split(s: string): (pieces: seq<string>)
    ensures |pieces| >= 1
    ensures forall i :: 0 <= i < |pieces| ==> '\n' !in pieces[i]
  {
    if s == [] then [""]
    else
      var rest := Split(s[1..]);
      if s[0] == '\n' then [""] + rest
      else [[s[0]] + rest[0]] + rest[1..]
  }

  /** Python's `'\n'.join(pieces)`. */
  function Join(pieces: seq<string>): string
    requires |pieces| >= 1
  {
    if |pieces| == 1 then pieces[0] else pieces[0] + "\n" + Join(pieces[1..])
  }

  /** Splitting loses nothing: joining the pieces with newlines gives back the text. */
  lemma {:induction false} SplitJoin(s: string)
    ensures Join(Split(s)) == s
  {
    if s != [] {
      var rest := Split(s[1..]);
      SplitJoin(s[1..]);
      if s[0] == '\n' {
        assert Split(s)[1..] == rest;
      } else {
        var pieces := Split(s);
        assert pieces[1..] == rest[1..];
        if |rest| == 1 {
          assert pieces == [[s[0]] + rest[0]];
        } else {
          assert Join(rest) == rest[0] + "\n" + Join(rest[1..]);
        }
      }
    }
  }

  /** There is one more piece than there are newlines. */
  lemma {:induction false} SplitCount(s: string)
    ensures |Split(s)| == multiset(s)['\n'] + 1
  {
    if s != [] {
      SplitCount(s[1..]);
      assert s == [s[0]] + s[1..];
    }
  }

  /** The lines the analyzer iterates over: at least one, none holding a newline. */
  function Lines(content: string): (lines: seq<string>)
    ensures |lines| >= 1
    ensures forall i :: 0 <= i < |lines| ==> '\n' !in lines[i]
  {
    Split(Strip(content))
  }

  /**
   * `total_logs` counts every piece, matching or not: one more than the newlines inside the
   * stripped text, so an empty or all-blank input still counts one line.
   */
  lemma LineCount(content: string)
    ensures |Lines(content)| == multiset(Strip(content))['\n'] + 1
    ensures Join(Lines(content)) == Strip(content)
    ensures Strip(content) == "" ==> Lines(content) == [""]
  {
    SplitCount(Strip(content));
    SplitJoin(Strip(content));
  }

  // ---------------------------------------------------------------------------------------
  // The line pattern

  datatype CharClass = Word | Space

  predicate InClass(c: char, cls: CharClass)
  {
    match cls
    case Word => IsWordChar(c)
    case Space => IsSpace(c)
  }

  /** The length of the longest run of `cls` characters starting at position `i`. */
  function Span(s: string, i: nat, cls: CharClass): (n: nat)
    requires i <= |s|
    ensures i + n <= |s|
    decreases |s| - i
  {
    if i < |s| && InClass(s[i], cls) then 1 + Span(s, i + 1, cls) else 0
  }

  /** What `Span` measures is a maximal run: every character in it is in the class, and the next one is not. */
  lemma {:induction false} SpanIsRun(s: string, i: nat, cls: CharClass)
    requires i <= |s|
    ensures forall k :: i <= k < i + Span(s, i, cls) ==> InClass(s[k], cls)
    ensures i + Span(s, i, cls) == |s| || !InClass(s[i + Span(s, i, cls)], cls)
    decreases |s| - i
  {
    if i < |s| && InClass(s[i], cls) {
      SpanIsRun(s, i + 1, cls);
    }
  }

  /** The shape of `\d{4}-\d{2}-\d{2} \d{2}:\d{2}:\d{2}`: 'D' stands for a digit, anything else for itself. */
  const DATE_TIME_SHAPE: string := "DDDD-DD-DD DD:DD:DD"

  predicate FitsShape(s: string, i: nat, shape: string)
  {
    && i + |shape| <= |s|
    && forall k :: 0 <= k < |shape| ==>
         if shape[k] == 'D' then IsDigit(s[i + k]) else s[i + k] == shape[k]
  }

  /** The characters of `s` before its first newline (`.` does not match a newline). */
  function TakeLine(s: string): (r: string)
    ensures |r| <= |s| && r == s[..|r|] && '\n' !in r
    ensures |r| == |s| || s[|r|] == '\n'
  {
    if s == [] || s[0] == '\n' then []
    else
      var rest := TakeLine(s[1..]);
      assert [s[0]] + rest == s[..|rest| + 1];
      [s[0]] + rest
  }

  /**
   * Where `(.+)` starts after `\s+` has taken at most `k` of the `w` leading whitespace
   * characters: the greedy `\s+` gives characters back until `.` can match one.
   */
  function PickStart(rest: string, k: nat): (start: Option<nat>)
    requires k <= |rest|
    ensures start.Some? ==> 1 <= start.value <= k && start.value < |rest| && rest[start.value] != '\n'
    ensures start.Some? ==> forall j :: start.value < j <= k && j < |rest| ==> rest[j] == '\n'
    ensures start.None? <==> forall j :: 1 <= j <= k && j < |rest| ==> rest[j] == '\n'
  {
    if k == 0 then None
    else if k < |rest| && rest[k] != '\n' then Some(k)
    else PickStart(rest, k - 1)
  }

  /** `\s+(.+)` applied to what follows the colon. */
  function MessageOf(rest: string): (message: Option<string>)
    ensures message.Some? ==> message.value != [] && '\n' !in message.value
  {
    var w := Span(rest, 0, Space);
    match PickStart(rest, w)
    case None => None
    case Some(k) =>
      var m := TakeLine(rest[k..]);
      assert m != [];
      Some(m)
  }

  /** What a matching line contributes: its upper-cased level and its message. */
  datatype Entry = Entry(level: string, message: string)

  /** `(\w+)\s+` and then the date and time: where the date starts, when they are there. */
  function DateStart(line: string): (date: Option<nat>)
    ensures date.Some? ==> date.value + |DATE_TIME_SHAPE| <= |line|
  {
    var word := Span(line, 0, Word);
    var space := Span(line, word, Space);
    if word == 0 || space == 0 || !FitsShape(line, word + space, DATE_TIME_SHAPE) then None
    else Some(word + space)
  }

  /** `\s+-` from position `i`: where the dash is, when it is there. */
  function DashAt(line: string, i: nat): (dash: Option<nat>)
    requires i <= |line|
    ensures dash.Some? ==> i < dash.value < |line| && line[dash.value] == '-'
  {
    var space := Span(line, i, Space);
    if space == 0 || i + space >= |line| || line[i + space] != '-' then None
    else Some(i + space)
  }

  /** `\s+(\w+):` from position `i`: where the level word starts and where its colon is, when they are there. */
  function LevelAt(line: string, i: nat): (span: Option<(nat, nat)>)
    requires i <= |line|
    ensures span.Some? ==> i < span.value.0 < span.value.1 < |line| && line[span.value.1] == ':'
  {
    var space := Span(line, i, Space);
    var levelStart := i + space;
    var word := Span(line, levelStart, Word);
    var colon := levelStart + word;
    if space == 0 || word == 0 || colon >= |line| || line[colon] != ':' then None
    else Some((levelStart, colon))
  }

  /**
   * The part of the log pattern before the message: `(\w+)\s+` then the date and time,
   * `\s+-\s+`, the level word and its colon. Gives where the level starts and where its
   * colon is.
   */
  function LevelSpan(line: string): (span: Option<(nat, nat)>)
    ensures span.Some? ==> span.value.0 < span.value.1 < |line| && line[span.value.1] == ':'
  {
    match DateStart(line)
    case None => None
    case Some(date) =>
      match DashAt(line, date + |DATE_TIME_SHAPE|)
      case None => None
      case Some(dash) => LevelAt(line, dash + 1)
  }

  /**
   * `re.match` of the log pattern against one line. The level of a match is a non-empty word
   * with no lower-case letter left; the message is a non-empty text without a newline.
   */
  function Match(line: string): (r: Option<Entry>)
    ensures r.Some? ==> |r.value.level| > 0 && forall i :: 0 <= i < |r.value.level| ==> !IsLower(r.value.level[i])
    ensures r.Some? ==> r.value.message != [] && '\n' !in r.value.message
  {
    var span := LevelSpan(line);
    if span.None? then None
    else
      var message := MessageOf(line[span.value.1 + 1..]);
      if message.None? then None
      else Some(Entry(Upper(line[span.value.0..span.value.1]), message.value))
  }

  // ---------------------------------------------------------------------------------------
  // What the pattern means

  /** Every character of `s` before position `j` is whitespace. */
  predicate SpacesBefore(s: string, j: nat)
  {
    j <= |s| && forall k :: 0 <= k < j ==> IsSpace(s[k])
  }

  /**
   * Where `(.+)` starts: `\s+` covers the first `j` characters and a character other than a
   * newline follows; the engine tries the longest `\s+` first, so no longer whitespace prefix is
   * followed by such a character.
   */
  predicate TailStart(rest: string, j: nat)
  {
    && 1 <= j < |rest| && SpacesBefore(rest, j) && rest[j] != '\n'
    && forall j' :: j < j' < |rest| && SpacesBefore(rest, j') ==> rest[j'] == '\n'
  }

  /** `\s+(.+)` matches at the start of `rest` with `message` as its group. */
  ghost predicate Tail(rest: string, message: string)
  {
    exists j: nat :: TailStart(rest, j) && message == TakeLine(rest[j..])
  }

  /** The characters from `i` up to `j` form a non-empty run of `cls`. */
  predicate Run(s: string, i: nat, j: nat, cls: CharClass)
  {
    i < j <= |s| && forall k :: i <= k < j ==> InClass(s[k], cls)
  }

  /**
   * The split of a line's start along `(\w+)\s+(\d{4}-\d{2}-\d{2} \d{2}:\d{2}:\d{2})\s+-\s+(\w+):`:
   * the word runs up to `word`, whitespace up to `date`, where the date and time start; more
   * whitespace up to the dash at `dash`, whitespace up to `levelStart`, and the level word up to
   * the colon at `colon`.
   */
  predicate HeaderSplit(line: string, word: nat, date: nat, dash: nat, levelStart: nat, colon: nat)
  {
    && Run(line, 0, word, Word)
    && Run(line, word, date, Space)
    && FitsShape(line, date, DATE_TIME_SHAPE)
    && Run(line, date + |DATE_TIME_SHAPE|, dash, Space)
    && dash < |line| && line[dash] == '-'
    && Run(line, dash + 1, levelStart, Space)
    && Run(line, levelStart, colon, Word)
    && colon < |line| && line[colon] == ':'
  }

  /**
   * The part of the pattern before the message matches at the start of `line`, with the level
   * word from `levelStart` to the colon at `colon`.
   */
  ghost predicate Header(line: string, levelStart: nat, colon: nat)
  {
    exists word: nat, date: nat, dash: nat :: HeaderSplit(line, word, date, dash, levelStart, colon)
  }

  /** The whole pattern matches at the start of `line`, giving `entry` (its level upper-cased). */
  ghost predicate LineMatch(line: string, entry: Entry)
  {
    exists levelStart: nat, colon: nat ::
      && Header(line, levelStart, colon)
      && levelStart <= colon < |line|
      && entry.level == Upper(line[levelStart..colon])
      && Tail(line[colon + 1..], entry.message)
  }

  /** No character is both a word character and whitespace. */
  lemma WordNotSpace(c: char)
    ensures IsWordChar(c) ==> !IsSpace(c)
  {
  }

  /** A maximal run is what `Span` measures. */
  lemma {:induction false} RunIsSpan(s: string, i: nat, j: nat, cls: CharClass)
    requires Run(s, i, j, cls) && j < |s| && !InClass(s[j], cls)
    ensures Span(s, i, cls) == j - i
    decreases j - i
  {
    if i + 1 < j {
      RunIsSpan(s, i + 1, j, cls);
    } else {
      assert Span(s, i + 1, cls) == 0;
    }
  }

  /** A whitespace prefix is never longer than the whitespace run `Span` measures. */
  lemma SpacesWithinSpan(rest: string, j: nat)
    requires SpacesBefore(rest, j)
    ensures j <= Span(rest, 0, Space)
  {
    SpanIsRun(rest, 0, Space);
  }

  /** `MessageOf` finds the tail exactly when `\s+(.+)` matches, with the group the engine picks. */
  lemma MessageOfMeans(rest: string, message: string)
    ensures MessageOf(rest) == Some(message) <==> Tail(rest, message)
  {
    var w := Span(rest, 0, Space);
    SpanIsRun(rest, 0, Space);
    assert SpacesBefore(rest, w);
    forall j' | SpacesBefore(rest, j') ensures j' <= w {
      SpacesWithinSpan(rest, j');
    }
    match PickStart(rest, w)
    case None =>
    case Some(k) =>
      assert SpacesBefore(rest, k);
      assert TailStart(rest, k);
      forall j | TailStart(rest, j) ensures j == k {
        assert j <= w;
      }
  }

  /** `MessageOf` finds nothing exactly when no whitespace prefix is followed by a non-newline. */
  lemma MessageOfNone(rest: string)
    ensures MessageOf(rest).None? <==>
      forall j :: 1 <= j < |rest| && SpacesBefore(rest, j) ==> rest[j] == '\n'
  {
    var w := Span(rest, 0, Space);
    SpanIsRun(rest, 0, Space);
    assert SpacesBefore(rest, w);
    forall j | SpacesBefore(rest, j) ensures j <= w {
      SpacesWithinSpan(rest, j);
    }
  }

  /** A word, whitespace and then the date and time: `DateStart` finds where the date starts. */
  lemma DateFound(line: string, word: nat, date: nat)
    requires Run(line, 0, word, Word) && Run(line, word, date, Space)
    requires FitsShape(line, date, DATE_TIME_SHAPE)
    ensures DateStart(line) == Some(date)
  {
    WordNotSpace(line[word]);
    RunIsSpan(line, 0, word, Word);
    assert DATE_TIME_SHAPE[0] == 'D';
    assert IsDigit(line[date]);
    WordNotSpace(line[date]);
    RunIsSpan(line, word, date, Space);
  }

  /** Whitespace up to a dash: `DashAt` finds the dash. */
  lemma DashFound(line: string, i: nat, dash: nat)
    requires Run(line, i, dash, Space) && dash < |line| && line[dash] == '-'
    ensures DashAt(line, i) == Some(dash)
  {
    RunIsSpan(line, i, dash, Space);
  }

  /** Whitespace, a word and a colon: `LevelAt` finds the word and the colon. */
  lemma LevelFound(line: string, i: nat, levelStart: nat, colon: nat)
    requires Run(line, i, levelStart, Space) && Run(line, levelStart, colon, Word)
    requires colon < |line| && line[colon] == ':'
    ensures LevelAt(line, i) == Some((levelStart, colon))
  {
    WordNotSpace(line[levelStart]);
    RunIsSpan(line, i, levelStart, Space);
    RunIsSpan(line, levelStart, colon, Word);
  }

  /** What `LevelSpan` finds when the header is there. */
  lemma HeaderFound(line: string, word: nat, date: nat, dash: nat, levelStart: nat, colon: nat)
    requires HeaderSplit(line, word, date, dash, levelStart, colon)
    ensures LevelSpan(line) == Some((levelStart, colon))
  {
    DateFound(line, word, date);
    DashFound(line, date + |DATE_TIME_SHAPE|, dash);
    LevelFound(line, dash + 1, levelStart, colon);
    LevelSpanSteps(line, date, dash);
  }

  /** `LevelSpan` chains its three steps. */
  lemma LevelSpanSteps(line: string, date: nat, dash: nat)
    requires DateStart(line) == Some(date)
    requires date + |DATE_TIME_SHAPE| <= |line| && DashAt(line, date + |DATE_TIME_SHAPE|) == Some(dash)
    requires dash < |line|
    ensures LevelSpan(line) == LevelAt(line, dash + 1)
  {
  }

  /** Where `DateStart` finds the date, a word and whitespace lead up to it. */
  lemma DateStartRuns(line: string)
    requires DateStart(line).Some?
    ensures Run(line, 0, Span(line, 0, Word), Word)
    ensures Run(line, Span(line, 0, Word), DateStart(line).value, Space)
    ensures FitsShape(line, DateStart(line).value, DATE_TIME_SHAPE)
  {
    SpanIsRun(line, 0, Word);
    SpanIsRun(line, Span(line, 0, Word), Space);
  }

  /** Where `DashAt` finds the dash, whitespace leads up to it. */
  lemma DashAtRuns(line: string, i: nat)
    requires i <= |line| && DashAt(line, i).Some?
    ensures Run(line, i, DashAt(line, i).value, Space)
  {
    SpanIsRun(line, i, Space);
  }

  /** Where `LevelAt` finds the level, whitespace leads up to it and the word runs up to the colon. */
  lemma LevelAtRuns(line: string, i: nat)
    requires i <= |line| && LevelAt(line, i).Some?
    ensures Run(line, i, LevelAt(line, i).value.0, Space)
    ensures Run(line, LevelAt(line, i).value.0, LevelAt(line, i).value.1, Word)
  {
    SpanIsRun(line, i, Space);
    SpanIsRun(line, i + Span(line, i, Space), Word);
  }

  /** `LevelSpan` finds a span only where the header is. */
  lemma FoundHeader(line: string)
    requires LevelSpan(line).Some?
    ensures Header(line, LevelSpan(line).value.0, LevelSpan(line).value.1)
  {
    var date := DateStart(line).value;
    var dash := DashAt(line, date + |DATE_TIME_SHAPE|).value;
    LevelSpanSteps(line, date, dash);
    DateStartRuns(line);
    DashAtRuns(line, date + |DATE_TIME_SHAPE|);
    LevelAtRuns(line, dash + 1);
    var (levelStart, colon) := LevelAt(line, dash + 1).value;
    assert HeaderSplit(line, Span(line, 0, Word), date, dash, levelStart, colon);
  }

  /**
   * `LevelSpan` reads the header exactly as the pattern does: it returns the level's start and
   * colon if and only if the header matches there. The header's split is unique, since each
   * run is followed by a character its class excludes.
   */
  lemma LevelSpanMeans(line: string, levelStart: nat, colon: nat)
    ensures LevelSpan(line) == Some((levelStart, colon)) <==> Header(line, levelStart, colon)
  {
    if Header(line, levelStart, colon) {
      var word: nat, date: nat, dash: nat :| HeaderSplit(line, word, date, dash, levelStart, colon);
      HeaderFound(line, word, date, dash, levelStart, colon);
    }
    if LevelSpan(line) == Some((levelStart, colon)) {
      FoundHeader(line);
    }
  }

  /** A match found by `Match` is a match of the pattern. */
  lemma MatchSound(line: string, entry: Entry)
    requires Match(line) == Some(entry)
    ensures LineMatch(line, entry)
  {
    var levelStart, colon := MatchSpan(line, entry);
    MatchAtSpan(line, entry, levelStart, colon);
    LevelSpanMeans(line, levelStart, colon);
    MessageOfMeans(line[colon + 1..], entry.message);
    LineMatchAt(line, entry, levelStart, colon);
  }

  /** The span `Match` used to produce its entry. */
  lemma MatchSpan(line: string, entry: Entry) returns (levelStart: nat, colon: nat)
    requires Match(line) == Some(entry)
    ensures LevelSpan(line) == Some((levelStart, colon))
  {
    levelStart, colon := LevelSpan(line).value.0, LevelSpan(line).value.1;
  }

  /** What `Match` read at that span: the level before the colon and the message after it. */
  lemma MatchAtSpan(line: string, entry: Entry, levelStart: nat, colon: nat)
    requires Match(line) == Some(entry) && LevelSpan(line) == Some((levelStart, colon))
    ensures levelStart <= colon < |line| && entry.level == Upper(line[levelStart..colon])
    ensures MessageOf(line[colon + 1..]) == Some(entry.message)
  {
  }

  /** The pattern matches wherever its header and tail are found at the given spans. */
  lemma LineMatchAt(line: string, entry: Entry, levelStart: nat, colon: nat)
    requires Header(line, levelStart, colon) && levelStart <= colon < |line|
    requires entry.level == Upper(line[levelStart..colon]) && Tail(line[colon + 1..], entry.message)
    ensures LineMatch(line, entry)
  {
  }

  /** A match of the pattern is what `Match` finds. */
  lemma MatchComplete(line: string, entry: Entry)
    requires LineMatch(line, entry)
    ensures Match(line) == Some(entry)
  {
    var levelStart: nat, colon: nat :|
      && Header(line, levelStart, colon)
      && levelStart <= colon < |line|
      && entry.level == Upper(line[levelStart..colon])
      && Tail(line[colon + 1..], entry.message);
    LevelSpanMeans(line, levelStart, colon);
    MessageOfMeans(line[colon + 1..], entry.message);
    MatchSteps(line, levelStart, colon, entry.message);
  }

  /** `Match` chains the header and the tail. */
  lemma MatchSteps(line: string, levelStart: nat, colon: nat, message: string)
    requires LevelSpan(line) == Some((levelStart, colon))
    requires colon < |line| && MessageOf(line[colon + 1..]) == Some(message)
    ensures Match(line) == Some(Entry(Upper(line[levelStart..colon]), message))
  {
  }

  /**
   * `Match` agrees with the pattern: it gives `entry` if and only if the pattern matches the
   * line with that level (upper-cased) and message. In particular it gives nothing exactly when
   * the pattern does not match.
   */
  lemma MatchMeans(line: string, entry: Entry)
    ensures Match(line) == Some(entry) <==> LineMatch(line, entry)
  {
    if Match(line) == Some(entry) {
      MatchSound(line, entry);
    }
    if LineMatch(line, entry) {
      MatchComplete(line, entry);
    }
  }

  /** A non-empty word of `\w` characters. */
  predicate IsWord(s: string)
  {
    s != [] && forall k :: 0 <= k < |s| ==> IsWordChar(s[k])
  }

  /** A log line as the application writes it: `<word> <date> - <LEVEL>: <message>`. */
  function FormatLine(word: string, date: string, level: string, message: string): string
  {
    word + " " + date + " - " + level + ": " + message
  }

  /** The header of a formatted line splits at the places its parts put it. */
  lemma FormattedHeader(word: string, date: string, level: string, message: string)
    requires IsWord(word) && IsWord(level)
    requires |date| == |DATE_TIME_SHAPE| && FitsShape(date, 0, DATE_TIME_SHAPE)
    ensures HeaderSplit(FormatLine(word, date, level, message), |word|, |word| + 1, |word| + 21,
                        |word| + 23, |word| + 23 + |level|)
  {
    var line := FormatLine(word, date, level, message);
    var w := |word|;
    assert forall k :: 0 <= k < w ==> line[k] == word[k];
    assert line[w] == ' ';
    assert forall k :: 0 <= k < |date| ==> line[w + 1 + k] == date[k];
    assert line[w + 20] == ' ' && line[w + 21] == '-' && line[w + 22] == ' ';
    assert forall k :: 0 <= k < |level| ==> line[w + 23 + k] == level[k];
    assert line[w + 23 + |level|] == ':';
    assert Run(line, w + 23, w + 23 + |level|, Word) by {
      forall k | w + 23 <= k < w + 23 + |level| ensures IsWordChar(line[k]) {
        assert line[k] == level[k - (w + 23)];
      }
    }
  }

  /** The level and what follows its colon sit where the formatted line put them. */
  lemma FormattedParts(word: string, date: string, level: string, message: string, levelStart: nat, colon: nat)
    requires |date| == |DATE_TIME_SHAPE|
    requires levelStart == |word| + 23 && colon == levelStart + |level|
    ensures colon < |FormatLine(word, date, level, message)|
    ensures FormatLine(word, date, level, message)[levelStart..colon] == level
    ensures FormatLine(word, date, level, message)[colon + 1..] == " " + message
  {
    var line := FormatLine(word, date, level, message);
    assert line == (word + " " + date + " - ") + level + (": " + message);
  }

  /** A single space before a message that starts with no whitespace: the message is the tail. */
  lemma SpaceThenMessage(message: string)
    requires message != [] && !IsSpace(message[0]) && '\n' !in message
    ensures MessageOf(" " + message) == Some(message)
  {
    var rest := " " + message;
    assert rest[1] == message[0];
    assert TailStart(rest, 1);
    assert rest[1..] == message;
    MessageOfMeans(rest, message);
  }

  /**
   * Formatting a line and matching it gives back its parts: the level upper-cased and the
   * message unchanged, provided the message does not begin with whitespace (which `\s+`
   * would take) and holds no newline.
   */
  lemma FormattedLineMatches(word: string, date: string, level: string, message: string)
    requires IsWord(word) && IsWord(level)
    requires |date| == |DATE_TIME_SHAPE| && FitsShape(date, 0, DATE_TIME_SHAPE)
    requires message != [] && !IsSpace(message[0]) && '\n' !in message
    ensures Match(FormatLine(word, date, level, message)) == Some(Entry(Upper(level), message))
  {
    var levelStart, colon := FormattedLevelSpan(word, date, level, message);
    FormattedTail(word, date, level, message, levelStart, colon);
    MatchParts(FormatLine(word, date, level, message), levelStart, colon, level, message);
  }

  /** `LevelSpan` finds the level of a formatted line where the formatting put it. */
  lemma FormattedLevelSpan(word: string, date: string, level: string, message: string)
      returns (levelStart: nat, colon: nat)
    requires IsWord(word) && IsWord(level)
    requires |date| == |DATE_TIME_SHAPE| && FitsShape(date, 0, DATE_TIME_SHAPE)
    ensures levelStart == |word| + 23 && colon == levelStart + |level|
    ensures LevelSpan(FormatLine(word, date, level, message)) == Some((levelStart, colon))
  {
    levelStart, colon := |word| + 23, |word| + 23 + |level|;
    FormattedHeader(word, date, level, message);
    HeaderFound(FormatLine(word, date, level, message), |word|, |word| + 1, |word| + 21, levelStart, colon);
  }

  /** The level of a formatted line reads back unchanged, and so does the message after its colon. */
  lemma FormattedTail(word: string, date: string, level: string, message: string, levelStart: nat, colon: nat)
    requires |date| == |DATE_TIME_SHAPE|
    requires message != [] && !IsSpace(message[0]) && '\n' !in message
    requires levelStart == |word| + 23 && colon == levelStart + |level|
    ensures colon < |FormatLine(word, date, level, message)|
    ensures FormatLine(word, date, level, message)[levelStart..colon] == level
    ensures MessageOf(FormatLine(word, date, level, message)[colon + 1..]) == Some(message)
  {
    FormattedParts(word, date, level, message, levelStart, colon);
    SpaceThenMessage(message);
  }

  /** A line whose level and tail read as `level` and `message` matches as those two. */
  lemma MatchParts(line: string, levelStart: nat, colon: nat, level: string, message: string)
    requires LevelSpan(line) == Some((levelStart, colon))
    requires colon < |line| && line[levelStart..colon] == level
    requires MessageOf(line[colon + 1..]) == Some(message)
    ensures Match(line) == Some(Entry(Upper(level), message))
  {
    MatchSteps(line, levelStart, colon, message);
  }

  /** Without a dash where the pattern wants one, `Match` finds nothing. */
  lemma NoDashNoMatch(line: string, date: nat)
    requires DateStart(line) == Some(date)
    requires date + |DATE_TIME_SHAPE| <= |line| && DashAt(line, date + |DATE_TIME_SHAPE|) == None
    ensures Match(line) == None
  {
  }

  /**
   * A line whose date is followed by the level with no dash in between does not match: the
   * pattern wants `\s+-\s+` there, so the line is not counted at all.
   */
  lemma MissingDashNoMatch(word: string, date: string, level: string, message: string)
    requires IsWord(word) && IsWord(level)
    requires |date| == |DATE_TIME_SHAPE| && FitsShape(date, 0, DATE_TIME_SHAPE)
    ensures Match(word + " " + date + " " + level + ": " + message) == None
  {
    var line := word + " " + date + " " + level + ": " + message;
    var w := |word|;
    assert forall k :: 0 <= k < w ==> line[k] == word[k];
    assert line[w] == ' ';
    assert forall k :: 0 <= k < |date| ==> line[w + 1 + k] == date[k];
    assert line[w + 20] == ' ' && line[w + 21] == level[0];
    DateFound(line, w, w + 1);
    WordNotSpace(level[0]);
    RunIsSpan(line, w + 20, w + 21, Space);
    NoDashNoMatch(line, w + 1);
  }

  /** The date and time of the example lines. */
  const EXAMPLE_DATE: string := "2024-01-01 12:00:00"

  lemma ExampleDateFits()
    ensures |EXAMPLE_DATE| == |DATE_TIME_SHAPE| && FitsShape(EXAMPLE_DATE, 0, DATE_TIME_SHAPE)
  {
  }

  /** A well-formed line is counted at ERROR, with its message. */
  lemma ErrorLineCounted()
    ensures Match("app 2024-01-01 12:00:00 - error: disk full") == Some(Entry(ERROR, "disk full"))
  {
    ExampleDateFits();
    assert IsWord("app") && IsWord("error");
    assert !IsSpace("disk full"[0]) && '\n' !in "disk full";
    FormattedLineMatches("app", EXAMPLE_DATE, "error", "disk full");
    ExampleLineText();
    LevelCaseFolded();
  }

  /** The example line is the formatted one. */
  lemma ExampleLineText()
    ensures "app" + " " + EXAMPLE_DATE + " - " + "error" + ": " + "disk full" == "app 2024-01-01 12:00:00 - error: disk full"
  {
  }

  /** The same line without its dash is not counted at all. */
  lemma DashlessLineIgnored()
    ensures Match("app 2024-01-01 12:00:00 error: disk full") == None
  {
    ExampleDateFits();
    assert IsWord("app") && IsWord("error");
    MissingDashNoMatch("app", EXAMPLE_DATE, "error", "disk full");
    DashlessLineText();
  }

  /** The dashless example line is built from the same parts. */
  lemma DashlessLineText()
    ensures "app" + " " + EXAMPLE_DATE + " " + "error" + ": " + "disk full" == "app 2024-01-01 12:00:00 error: disk full"
  {
  }

  // ---------------------------------------------------------------------------------------
  // Collecting and counting

  /** The entries of the matching lines, in line order. */
  function Parse(lines: seq<string>): (entries: seq<Entry>)
    ensures |entries| <= |lines|
  {
    if lines == [] then []
    else
      var last := lines[|lines| - 1];
      Parse(lines[..|lines| - 1]) + (match Match(last) case Some(e) => [e] case None => [])
  }

  /** The level of every entry, in order. */
  function LevelsOf(entries: seq<Entry>): (levels: seq<string>)
    ensures |levels| == |entries|
  {
    if entries == [] then [] else LevelsOf(entries[..|entries| - 1]) + [entries[|entries| - 1].level]
  }

  /** The messages of the entries at `level`, in order. */
  function MessagesAt(entries: seq<Entry>, level: string): seq<string>
  {
    if entries == [] then []
    else
      var last := entries[|entries| - 1];
      MessagesAt(entries[..|entries| - 1], level) + (if last.level == level then [last.message] else [])
  }

  /** As many messages are collected at a level as there are entries at that level. */
  lemma {:induction false} MessagesAtCount(entries: seq<Entry>, level: string)
    ensures |MessagesAt(entries, level)| == multiset(LevelsOf(entries))[level]
  {
    if entries != [] {
      MessagesAtCount(entries[..|entries| - 1], level);
    }
  }

  /** Parsing one more line appends that line's entry, if it matches. */
  lemma ParseSnoc(lines: seq<string>, i: nat)
    requires i < |lines|
    ensures Match(lines[i]).Some? ==> Parse(lines[..i + 1]) == Parse(lines[..i]) + [Match(lines[i]).value]
    ensures Match(lines[i]).None? ==> Parse(lines[..i + 1]) == Parse(lines[..i])
  {
    assert lines[..i + 1][..i] == lines[..i];
  }

  /** One more entry appends its level, and its message to the list of its own level. */
  lemma EntriesSnoc(entries: seq<Entry>, e: Entry)
    ensures LevelsOf(entries + [e]) == LevelsOf(entries) + [e.level]
    ensures MessagesAt(entries + [e], ERROR) == MessagesAt(entries, ERROR) + (if e.level == ERROR then [e.message] else [])
    ensures MessagesAt(entries + [e], WARNING) == MessagesAt(entries, WARNING) + (if e.level == WARNING then [e.message] else [])
    ensures MessagesAt(entries + [e], INFO) == MessagesAt(entries, INFO) + (if e.level == INFO then [e.message] else [])
  {
    assert (entries + [e])[..|entries|] == entries;
  }

  /** The count of a message within a list of messages. */
  function CountOf(p: (string, nat)): int
  {
    p.1
  }

  /** `Counter(s).most_common(n)`: (message, count) pairs, most frequent first. */
  function MostCommon(s: seq<string>, n: nat): (top: seq<(string, nat)>)
    ensures |top| == Min(n, |Distinct(s)|)
    ensures SortedDesc(top, CountOf)
    ensures forall i :: 0 <= i < |top| ==> top[i].0 in s && top[i].1 == multiset(s)[top[i].0]
    ensures forall i, j :: 0 <= i < j < |top| ==> top[i].0 != top[j].0
    ensures forall m, i :: m in s && (forall j :: 0 <= j < |top| ==> top[j].0 != m) && 0 <= i < |top| ==>
      multiset(s)[m] <= top[i].1
  {
    var d := Distinct(s);
    var pairs := seq(|d|, i requires 0 <= i < |d| => (d[i], multiset(s)[d[i]]));
    var sorted := SortDesc(pairs, CountOf);
    var top := Take(sorted, n);
    TopOfCounts(s, pairs, sorted, top);
    top
  }

  /** The (message, count) pairs built from the distinct messages of `s`, in the order `Distinct` gives. */
  ghost predicate CountPairs(s: seq<string>, pairs: seq<(string, nat)>)
  {
    var d := Distinct(s);
    |pairs| == |d| && forall i :: 0 <= i < |d| ==> pairs[i] == (d[i], multiset(s)[d[i]])
  }

  lemma TopOfCounts(s: seq<string>, pairs: seq<(string, nat)>, sorted: seq<(string, nat)>, top: seq<(string, nat)>)
    requires CountPairs(s, pairs)
    requires SortedDesc(sorted, CountOf) && multiset(sorted) == multiset(pairs)
    requires |top| <= |sorted| && top == sorted[..|top|]
    ensures forall i :: 0 <= i < |top| ==> top[i].0 in s && top[i].1 == multiset(s)[top[i].0]
    ensures forall i, j :: 0 <= i < j < |top| ==> top[i].0 != top[j].0
    ensures forall m, i :: m in s && (forall j :: 0 <= j < |top| ==> top[j].0 != m) && 0 <= i < |top| ==>
      multiset(s)[m] <= top[i].1
  {
    SortedPairsCarryCounts(s, pairs, sorted);
    SortedPairsDistinct(s, pairs, sorted);
    OmittedCountsNoLarger(s, pairs, sorted, |top|);
  }

  /** Every sorted pair is one of the pairs, so it carries its own message's count. */
  lemma SortedPairsCarryCounts(s: seq<string>, pairs: seq<(string, nat)>, sorted: seq<(string, nat)>)
    requires CountPairs(s, pairs)
    requires multiset(sorted) == multiset(pairs)
    ensures forall i :: 0 <= i < |sorted| ==> sorted[i].0 in s && sorted[i].1 == multiset(s)[sorted[i].0]
  {
    var d := Distinct(s);
    forall i | 0 <= i < |sorted| ensures sorted[i].0 in s && sorted[i].1 == multiset(s)[sorted[i].0] {
      assert sorted[i] in multiset(pairs);
      var k :| 0 <= k < |pairs| && pairs[k] == sorted[i];
      assert d[k] in s;
    }
  }

  /** No message appears twice among the sorted pairs. */
  lemma SortedPairsDistinct(s: seq<string>, pairs: seq<(string, nat)>, sorted: seq<(string, nat)>)
    requires CountPairs(s, pairs)
    requires multiset(sorted) == multiset(pairs)
    ensures forall i, j :: 0 <= i < j < |sorted| ==> sorted[i].0 != sorted[j].0
  {
    SortedPairsCarryCounts(s, pairs, sorted);
    forall i, j | 0 <= i < j < |sorted| ensures sorted[i].0 != sorted[j].0 {
      if sorted[i].0 == sorted[j].0 {
        assert sorted[i] == sorted[j];
        DuplicateCounts(sorted, i, j);
        NoDuplicatePairs(s, pairs);
        AtMostOnce(pairs, sorted[i]);
        assert false;
      }
    }
  }

  /** A message outside the first `n` sorted pairs is no more frequent than any message inside. */
  lemma OmittedCountsNoLarger(s: seq<string>, pairs: seq<(string, nat)>, sorted: seq<(string, nat)>, n: nat)
    requires CountPairs(s, pairs)
    requires SortedDesc(sorted, CountOf) && multiset(sorted) == multiset(pairs)
    requires n <= |sorted|
    ensures forall m, i :: m in s && (forall j :: 0 <= j < n ==> sorted[j].0 != m) && 0 <= i < n ==>
      multiset(s)[m] <= sorted[i].1
  {
    var d := Distinct(s);
    forall m, i | m in s && (forall j :: 0 <= j < n ==> sorted[j].0 != m) && 0 <= i < n
      ensures multiset(s)[m] <= sorted[i].1
    {
      var k :| 0 <= k < |d| && d[k] == m;
      assert pairs[k] in multiset(sorted);
      var t :| 0 <= t < |sorted| && sorted[t] == pairs[k];
      assert sorted[t].0 == m;
      assert CountOf(sorted[i]) >= CountOf(sorted[t]);
    }
  }

  /** Two equal elements at different positions occur at least twice. */
  lemma DuplicateCounts<T>(s: seq<T>, i: nat, j: nat)
    requires i < j < |s| && s[i] == s[j]
    ensures multiset(s)[s[i]] >= 2
  {
    assert s == s[..j] + s[j..];
    assert s[i] in multiset(s[..j]);
    assert s[j] in multiset(s[j..]);
  }

  /** Pairs built from distinct messages are distinct. */
  lemma NoDuplicatePairs(s: seq<string>, pairs: seq<(string, nat)>)
    requires CountPairs(s, pairs)
    ensures NoDuplicates(pairs)
  {
    var d := Distinct(s);
    forall i, j | 0 <= i < j < |pairs| ensures pairs[i] != pairs[j] {
      assert d[i] != d[j];
    }
  }

  /** In a sequence without duplicates every element occurs at most once. */
  lemma {:induction false} AtMostOnce<T>(s: seq<T>, x: T)
    requires NoDuplicates(s)
    ensures multiset(s)[x] <= 1
  {
    if s != [] {
      var p := s[..|s| - 1];
      assert s == p + [s[|s| - 1]];
      AtMostOnce(p, x);
    }
  }

  // ---------------------------------------------------------------------------------------
  // The analysis

  /** What `analyze` returns; the timestamp is the caller-supplied clock reading. */
  datatype Analysis = Analysis(
    levelCounts: map<string, nat>,
    totalLogs: nat,
    topErrors: seq<(string, nat)>,
    topWarnings: seq<(string, nat)>,
    topInfo: seq<(string, nat)>,
    analysisTimestamp: int)

  /**
   * Runs the analysis: one pass over the lines collects the level of every matching line and
   * the messages at ERROR, WARNING and INFO; then levels are tallied and each message list is
   * ranked, at most five entries per list.
   */
  method Analyze(content: string, now: int) returns (result: Analysis)
    ensures result.totalLogs == |Lines(content)|
    ensures result.levelCounts == Tally(LevelsOf(Parse(Lines(content))))
    ensures result.topErrors == MostCommon(MessagesAt(Parse(Lines(content)), ERROR), TOP_N)
    ensures result.topWarnings == MostCommon(MessagesAt(Parse(Lines(content)), WARNING), TOP_N)
    ensures result.topInfo == MostCommon(MessagesAt(Parse(Lines(content)), INFO), TOP_N)
    ensures result.analysisTimestamp == now
  {
    var lines := Strip(content);
    var pieces := Split(lines);
    var levels: seq<string> := [];
    var errors: seq<string> := [];
    var warnings: seq<string> := [];
    var infos: seq<string> := [];
    for i := 0 to |pieces|
      invariant levels == LevelsOf(Parse(pieces[..i]))
      invariant errors == MessagesAt(Parse(pieces[..i]), ERROR)
      invariant warnings == MessagesAt(Parse(pieces[..i]), WARNING)
      invariant infos == MessagesAt(Parse(pieces[..i]), INFO)
    {
      ParseSnoc(pieces, i);
      var m := Match(pieces[i]);
      if m.Some? {
        var level := m.value.level;
        var message := m.value.message;
        EntriesSnoc(Parse(pieces[..i]), m.value);
        assert ERROR != WARNING && ERROR != INFO && WARNING != INFO by {
          assert ERROR[0] != WARNING[0] && ERROR[0] != INFO[0] && WARNING[0] != INFO[0];
        }
        levels := levels + [level];
        if level == ERROR {
          errors := errors + [message];
        } else if level == WARNING {
          warnings := warnings + [message];
        } else if level == INFO {
          infos := infos + [message];
        }
      }
    }
    assert pieces[..|pieces|] == pieces;
    result := Analysis(
      Tally(levels), |pieces|,
      MostCommon(errors, TOP_N), MostCommon(warnings, TOP_N), MostCommon(infos, TOP_N),
      now);
  }

  /**
   * Only matching lines are counted, so the level counts add up to at most `total_logs`;
   * and the ERROR messages collected are exactly as many as the ERROR count (none when the
   * key is absent). The same holds for WARNING and INFO.
   */
  lemma CountsAgree(content: string, level: string)
    ensures SumValues(Tally(LevelsOf(Parse(Lines(content))))) <= |Lines(content)|
    ensures level in Tally(LevelsOf(Parse(Lines(content)))) ==>
      Tally(LevelsOf(Parse(Lines(content))))[level] == |MessagesAt(Parse(Lines(content)), level)|
    ensures level !in Tally(LevelsOf(Parse(Lines(content)))) ==> MessagesAt(Parse(Lines(content)), level) == []
  {
    var entries := Parse(Lines(content));
    TallySum(LevelsOf(entries));
    MessagesAtCount(entries, level);
  }

  /** Levels are case-folded before counting: `error`, `Error` and `ERROR` land in one bucket. */
  lemma LevelCaseFolded()
    ensures Upper("error") == Upper("Error") == Upper("ERROR") == ERROR
  {
    assert Upper("error") == ERROR;
    assert Upper("Error") == ERROR;
    assert Upper("ERROR") == ERROR;
  }
}
