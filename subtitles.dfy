/**
 * The subtitle cue engine of the host's video panel: parsing an uploaded
 * SubRip-style text into cues, finding the cue that covers the playback time,
 * and the periodic tick that shows it and broadcasts it to the viewers.
 */
module Subtitles {
  import opened Common
  import opened Text
  import opened Messages

  /** A cue: its interval in seconds (possibly NaN) and its text. */
  datatype Cue = Cue(start: Num, end: Num, text: string)

  /**
   * A chunk of three or more lines whose time line has no arrow: the end time is
   * `undefined`, `parseTime` throws, and the whole upload is abandoned.
   */
  datatype ParseError = MissingArrow(timeLine: string)

  const CueBreak: string := "\n\n"
  const LineBreak: string := "\n"
  const Arrow: string := " --> "

  /**
   * `parseTime`: the first comma becomes the decimal point, the text is split
   * on `:`, and the first three fields are read as hours, minutes and seconds.
   */
  function ParseTime(str: string): Num {
    TimeOfFields(Split(ReplaceFirst(str, ',', '.'), ":"))
  }

  /**
   * `hours * 3600 + minutes * 60 + seconds` over the fields; fewer than three
   * fields leave an operand `undefined`, which makes the sum NaN.
   */
  function TimeOfFields(fields: seq<string>): Num {
    if |fields| < 3 then NaN
    else NumberOf(fields[0]).Times(3600.0).Plus(NumberOf(fields[1]).Times(60.0)).Plus(NumberOf(fields[2]))
  }

  lemma {:induction false} ReplaceCommaInStamp(hh: string, mm: string, ss: string, ms: string)
    requires AllDigits(hh) && AllDigits(mm) && AllDigits(ss)
    ensures ReplaceFirst(hh + ":" + mm + ":" + ss + "," + ms, ',', '.') == hh + ":" + mm + ":" + (ss + "." + ms)
  {
    var hms := hh + ":" + mm + ":" + ss;
    DigitsLackChar(hh, ',');
    DigitsLackChar(mm, ',');
    DigitsLackChar(ss, ',');
    assert ',' !in hms;
    ReplaceFirstAfter(hms, "," + ms, ',', '.');
    assert hms + ("," + ms) == hh + ":" + mm + ":" + ss + "," + ms;
    assert ReplaceFirst("," + ms, ',', '.') == "." + ms;
  }

  lemma JoinThree(a: string, b: string, c: string, sep: string)
    ensures Join([a, b, c], sep) == a + sep + b + sep + c
  {
    assert [a, b, c][1..] == [b, c] && [b, c][1..] == [c];
    assert Join([b, c], sep) == b + sep + c;
  }

  lemma SplitStamp(hh: string, mm: string, sec: string)
    requires AllDigits(hh) && AllDigits(mm) && ':' !in sec
    ensures Split(hh + ":" + mm + ":" + sec, ":") == [hh, mm, sec]
  {
    DigitsLackChar(hh, ':');
    DigitsLackChar(mm, ':');
    JoinThree(hh, mm, sec, ":");
    SplitJoin([hh, mm, sec], ":");
  }

  lemma SecondsField(ss: string, ms: string)
    requires AllDigits(ss) && AllDigits(ms)
    ensures ':' !in ss + "." + ms
  {
    DigitsLackChar(ss, ':');
    DigitsLackChar(ms, ':');
  }

  /** The fields `parseTime` reads from `HH:MM:SS,mmm`. */
  lemma {:induction false} StampFields(hh: string, mm: string, ss: string, ms: string)
    requires AllDigits(hh) && AllDigits(mm) && AllDigits(ss) && AllDigits(ms)
    ensures Split(ReplaceFirst(hh + ":" + mm + ":" + ss + "," + ms, ',', '.'), ":") == [hh, mm, ss + "." + ms]
  {
    ReplaceCommaInStamp(hh, mm, ss, ms);
    SecondsField(ss, ms);
    SplitStamp(hh, mm, ss + "." + ms);
  }

  /** The three fields of a time stamp read as numbers. */
  lemma {:induction false} StampNumbers(hh: string, mm: string, ss: string, ms: string)
    requires |ss| + |ms| > 0
    requires AllDigits(hh) && AllDigits(mm) && AllDigits(ss) && AllDigits(ms)
    ensures NumberOf(hh) == Finite(DigitsValue(hh) as real)
    ensures NumberOf(mm) == Finite(DigitsValue(mm) as real)
    ensures NumberOf(ss + "." + ms) == Finite(DigitsValue(ss) as real + FractionValue(ms))
  {
    if |hh| > 0 {
      NumberOfDigits(hh);
    }
    if |mm| > 0 {
      NumberOfDigits(mm);
    }
    NumberOfDecimal(ss, ms);
  }

  /** Three fields read as `h`, `m` and `sec` give `h·3600 + m·60 + sec`. */
  lemma TimeOfNumbers(a: string, b: string, c: string, h: real, m: real, sec: real)
    requires NumberOf(a) == Finite(h) && NumberOf(b) == Finite(m) && NumberOf(c) == Finite(sec)
    ensures TimeOfFields([a, b, c]) == Finite(h * 3600.0 + m * 60.0 + sec)
  {
  }

  /** `parseTime` of a stamp reads the stamp's three fields. */
  lemma {:induction false} ParseTimeOfStampFields(hh: string, mm: string, ss: string, ms: string)
    requires AllDigits(hh) && AllDigits(mm) && AllDigits(ss) && AllDigits(ms)
    ensures ParseTime(hh + ":" + mm + ":" + ss + "," + ms) == TimeOfFields([hh, mm, ss + "." + ms])
  {
    StampFields(hh, mm, ss, ms);
  }

  /**
   * `parseTime("HH:MM:SS,mmm")` is `HH·3600 + MM·60 + SS.mmm` for digit fields
   * of any length; an empty field reads as 0, as long as the seconds and the
   * milliseconds are not both empty (`Number(".")` is NaN).
   */
  lemma {:induction false} ParseTimeOfStamp(hh: string, mm: string, ss: string, ms: string)
    requires |ss| + |ms| > 0
    requires AllDigits(hh) && AllDigits(mm) && AllDigits(ss) && AllDigits(ms)
    ensures ParseTime(hh + ":" + mm + ":" + ss + "," + ms)
         == Finite(DigitsValue(hh) as real * 3600.0 + DigitsValue(mm) as real * 60.0
                   + (DigitsValue(ss) as real + FractionValue(ms)))
  {
    ParseTimeOfStampFields(hh, mm, ss, ms);
    StampNumbers(hh, mm, ss, ms);
    TimeOfNumbers(hh, mm, ss + "." + ms, DigitsValue(hh) as real, DigitsValue(mm) as real,
                  DigitsValue(ss) as real + FractionValue(ms));
  }

  /** A time with fewer than two colons is NaN. */
  lemma FewFieldsIsNaN(str: string)
    requires |Split(ReplaceFirst(str, ',', '.'), ":")| < 3
    ensures ParseTime(str) == NaN
  {
  }

  /** One chunk's lines: the cue it yields, none for a short chunk, or the error it throws. */
  function ParseLines(lines: seq<string>): Result<Option<Cue>, ParseError> {
    if |lines| < 3 then Success(None)
    else
      var times := Split(lines[1], Arrow);
      if |times| < 2 then Failure(MissingArrow(lines[1]))
      else Success(Some(Cue(ParseTime(times[0]), ParseTime(times[1]), Join(lines[2..], " "))))
  }

  function ParseChunk(chunk: string): Result<Option<Cue>, ParseError> {
    ParseLines(Split(chunk, LineBreak))
  }

  /**
   * The `filter(Boolean)` over the chunks' outcomes, left to right: the first
   * outcome that is an error decides the result; otherwise each outcome adds at
   * most one cue.
   */
  function Collect<T, E>(outcomes: seq<Result<Option<T>, E>>): (r: Result<seq<T>, E>)
    ensures r.Success? ==> |r.value| <= |outcomes|
    decreases |outcomes|
  {
    if |outcomes| == 0 then Success([])
    else
      match outcomes[0]
      case Failure(e) => Failure(e)
      case Success(c) =>
        match Collect(outcomes[1..])
        case Failure(e) => Failure(e)
        case Success(rest) => Success(OptionToSeq(c) + rest)
  }

  /** Each chunk's outcome, in order: the `map` over the chunks. */
  function Outcomes(chunks: seq<string>): seq<Result<Option<Cue>, ParseError>> {
    seq(|chunks|, i requires 0 <= i < |chunks| => ParseChunk(chunks[i]))
  }

  function ParseChunks(chunks: seq<string>): Result<seq<Cue>, ParseError> {
    Collect(Outcomes(chunks))
  }

  /** The upload handler's pipeline over the whole file text. */
  function ParseCues(text: string): Result<seq<Cue>, ParseError> {
    ParseChunks(Split(text, CueBreak))
  }

  /** The outcome of two runs of chunks parsed one after the other. */
  function Concat<T, E>(ra: Result<seq<T>, E>, rb: Result<seq<T>, E>): Result<seq<T>, E> {
    if ra.Failure? then ra
    else if rb.Failure? then rb
    else Success(ra.value + rb.value)
  }

  lemma {:induction false} CollectAppend<T, E>(a: seq<Result<Option<T>, E>>, b: seq<Result<Option<T>, E>>)
    ensures Collect(a + b) == Concat(Collect(a), Collect(b))
    decreases |a|
  {
    if |a| == 0 {
      assert a + b == b;
      if Collect(b).Success? {
        var none: seq<T> := [];
        assert none + Collect(b).value == Collect(b).value;
      }
    } else {
      var ab := a + b;
      assert ab[0] == a[0] && ab[1..] == a[1..] + b;
      CollectAppend(a[1..], b);
      if a[0].Success? && Collect(a[1..]).Success? && Collect(b).Success? {
        var head := OptionToSeq(a[0].value);
        var u, v := Collect(a[1..]).value, Collect(b).value;
        assert head + (u + v) == head + u + v;
      }
    }
  }

  /** Parsing a list of chunks is parsing its halves in order and concatenating. */
  lemma ParseChunksAppend(a: seq<string>, b: seq<string>)
    ensures ParseChunks(a).Failure? ==> ParseChunks(a + b) == ParseChunks(a)
    ensures ParseChunks(a).Success? && ParseChunks(b).Failure? ==> ParseChunks(a + b) == ParseChunks(b)
    ensures ParseChunks(a).Success? && ParseChunks(b).Success? ==>
      ParseChunks(a + b) == Success(ParseChunks(a).value + ParseChunks(b).value)
  {
    assert Outcomes(a + b) == Outcomes(a) + Outcomes(b);
    CollectAppend(Outcomes(a), Outcomes(b));
  }

  lemma {:induction false} CollectSucceeds<T, E>(outcomes: seq<Result<Option<T>, E>>)
    ensures Collect(outcomes).Success? <==> forall i :: 0 <= i < |outcomes| ==> outcomes[i].Success?
    decreases |outcomes|
  {
    if |outcomes| > 0 {
      CollectSucceeds(outcomes[1..]);
      assert forall i :: 1 <= i < |outcomes| ==> outcomes[i] == outcomes[1..][i - 1];
    }
  }

  /** The upload succeeds exactly when no chunk throws. */
  lemma ParseChunksSucceeds(chunks: seq<string>)
    ensures ParseChunks(chunks).Success? <==> forall i :: 0 <= i < |chunks| ==> ParseChunk(chunks[i]).Success?
  {
    var outcomes := Outcomes(chunks);
    assert forall i :: 0 <= i < |chunks| ==> outcomes[i] == ParseChunk(chunks[i]);
    CollectSucceeds(outcomes);
  }

  /** A chunk throws exactly when it has three or more lines and its second line lacks the arrow. */
  lemma ChunkFails(chunk: string)
    ensures ParseChunk(chunk).Failure? <==>
      var lines := Split(chunk, LineBreak);
      |lines| >= 3 && !Contains(lines[1], Arrow)
  {
    var lines := Split(chunk, LineBreak);
    if |lines| >= 3 {
      SplitCount(lines[1], Arrow);
    }
  }

  /** A chunk of fewer than three lines yields no cue. */
  lemma ShortChunkIgnored(chunk: string)
    requires |Split(chunk, LineBreak)| < 3
    ensures ParseChunks([chunk]) == Success([])
  {
    var o := Outcomes([chunk]);
    assert o[0] == Success(None);
    assert o[1..] == [];
    var none: seq<Cue> := [];
    assert none + none == none;
  }

  /** The first line of a chunk (the cue index) plays no part in the cue. */
  lemma IndexLineIgnored(lines: seq<string>, index: string)
    requires |lines| >= 1
    ensures ParseLines([index] + lines[1..]) == ParseLines(lines)
  {
    var other := [index] + lines[1..];
    assert |other| == |lines| && other[1..] == lines[1..];
    if |lines| >= 2 {
      assert other[1] == lines[1] && other[2..] == lines[2..];
    }
  }

  /** Every line break in `s` is followed by a character other than a line break. */
  predicate SingleBreaks(s: string) {
    forall k :: 0 <= k < |s| && s[k] == '\n' ==> k + 1 < |s| && s[k + 1] != '\n'
  }

  /** A line, a break, then text that starts with a character other than a break. */
  lemma BreakBeforeLine(a: string, t: string)
    requires '\n' !in a && |t| > 0 && t[0] != '\n' && SingleBreaks(t)
    ensures SingleBreaks(a + LineBreak + t)
  {
    var s := a + LineBreak + t;
    forall k | 0 <= k < |s| && s[k] == '\n'
      ensures k + 1 < |s| && s[k + 1] != '\n'
    {
      if k < |a| {
        assert false;
      } else if k == |a| {
        assert s[k + 1] == t[0];
      } else {
        assert s[k] == t[k - |a| - 1];
        if k + 1 < |s| {
          assert s[k + 1] == t[k - |a|];
        }
      }
    }
  }

  /**
   * Lines without a line break, all but the first of them non-empty, joined
   * with line breaks: no break follows another or ends the text.
   */
  lemma {:induction false} JoinedLinesSingleBreaks(lines: seq<string>)
    requires |lines| >= 1
    requires forall i :: 0 <= i < |lines| ==> '\n' !in lines[i]
    requires forall i :: 1 <= i < |lines| ==> |lines[i]| > 0
    ensures SingleBreaks(Join(lines, LineBreak))
    decreases |lines|
  {
    if |lines| > 1 {
      var rest := lines[1..];
      assert forall i :: 0 <= i < |rest| ==> rest[i] == lines[i + 1];
      JoinedLinesSingleBreaks(rest);
      var t := Join(rest, LineBreak);
      assert |rest| == 1 ==> t == rest[0];
      assert |rest| > 1 ==> t == rest[0] + LineBreak + Join(rest[1..], LineBreak);
      assert t[0] == lines[1][0];
      BreakBeforeLine(lines[0], t);
    }
  }

  /**
   * A text whose breaks are all single holds no blank line, and the cue break
   * after it cannot start a match inside it.
   */
  lemma SingleBreaksIsolate(s: string)
    requires SingleBreaks(s)
    ensures !Contains(s, CueBreak) && NoMatchStartsIn(s, CueBreak, CueBreak)
  {
    forall p | 0 <= p <= |s| ensures !OccursAt(s, CueBreak, p) {
      if p + 2 <= |s| {
        if s[p] == '\n' {
          assert s[p..p + 2][1] == s[p + 1];
        } else {
          assert s[p..p + 2][0] == s[p];
        }
      }
    }
    forall p | 0 <= p < |s| ensures !OccursAt(s + CueBreak, CueBreak, p) {
      var w := s + CueBreak;
      if s[p] == '\n' {
        assert w[p + 1] == s[p + 1];
      } else {
        assert w[p] == s[p];
      }
    }
  }

  /** `start --> end` splits back into its two times when neither holds a space. */
  lemma TimeLineSplit(start: string, end: string)
    requires ' ' !in start && ' ' !in end
    ensures Split(start + Arrow + end, Arrow) == [start, end]
  {
    assert [start, end][1..] == [end];
    assert Join([start, end], Arrow) == start + Arrow + end;
    SplitJoin([start, end], Arrow);
  }

  /** The lines of a well-formed chunk, none of which holds a line break. */
  lemma WellFormedLines(index: string, start: string, end: string, text: seq<string>)
    requires |text| >= 1
    requires '\n' !in index && '\n' !in start && '\n' !in end
    requires forall i :: 0 <= i < |text| ==> '\n' !in text[i]
    ensures var lines := [index, start + Arrow + end] + text;
      && |lines| >= 3 && lines[1] == start + Arrow + end && lines[2..] == text
      && forall i :: 0 <= i < |lines| ==> '\n' !in lines[i]
  {
    var lines := [index, start + Arrow + end] + text;
    assert '\n' !in Arrow;
    assert forall i :: 2 <= i < |lines| ==> lines[i] == text[i - 2];
    assert lines[2..] == text;
  }

  /**
   * Lines without a line break, the second of them `start --> end`, joined into
   * one chunk, parse to the cue with those times and the remaining lines as text.
   */
  lemma ChunkOfLines(lines: seq<string>, start: string, end: string)
    requires |lines| >= 3 && lines[1] == start + Arrow + end
    requires forall i :: 0 <= i < |lines| ==> '\n' !in lines[i]
    requires ' ' !in start && ' ' !in end
    ensures ParseChunk(Join(lines, LineBreak))
         == Success(Some(Cue(ParseTime(start), ParseTime(end), Join(lines[2..], " "))))
  {
    SplitJoin(lines, LineBreak);
    TimeLineSplit(start, end);
  }

  /**
   * A well-formed chunk — index, `start --> end`, then text lines — yields the
   * cue with those times and the text lines joined by single spaces.
   */
  lemma WellFormedChunk(index: string, start: string, end: string, text: seq<string>)
    requires |text| >= 1
    requires '\n' !in index && '\n' !in start && '\n' !in end
    requires forall i :: 0 <= i < |text| ==> '\n' !in text[i]
    requires ' ' !in start && ' ' !in end
    ensures ParseChunk(Join([index, start + Arrow + end] + text, LineBreak))
         == Success(Some(Cue(ParseTime(start), ParseTime(end), Join(text, " "))))
  {
    WellFormedLines(index, start, end, text);
    ChunkOfLines([index, start + Arrow + end] + text, start, end);
  }

  /**
   * A text without a blank line — a CRLF file among them, whose breaks are
   * `\r\n\r\n` — is a single chunk.
   */
  lemma NoBlankLineIsOneChunk(text: string)
    requires !Contains(text, CueBreak)
    ensures ParseCues(text) == ParseChunks([text])
  {
    SplitSingle(text, CueBreak);
  }

  /** A SubRip cue block as written in a file: index line, time line, text lines. */
  datatype Block = Block(index: string, start: string, end: string, text: seq<string>)

  /**
   * A block the parser reads back: at least one text line, no line break
   * inside a line, no space inside a time, and no empty text line (an empty
   * line would end the block early).
   */
  predicate WellFormedBlock(b: Block) {
    && |b.text| >= 1
    && '\n' !in b.index && '\n' !in b.start && '\n' !in b.end
    && ' ' !in b.start && ' ' !in b.end
    && forall i :: 0 <= i < |b.text| ==> '\n' !in b.text[i] && |b.text[i]| > 0
  }

  /** The block's text in the file. */
  function BlockText(b: Block): string {
    Join([b.index, b.start + Arrow + b.end] + b.text, LineBreak)
  }

  /** The cue the block stands for. */
  function BlockCue(b: Block): Cue {
    Cue(ParseTime(b.start), ParseTime(b.end), Join(b.text, " "))
  }

  /** A subtitle file: the blocks' texts separated by blank lines. */
  function Sheet(blocks: seq<Block>): string {
    Join(seq(|blocks|, i requires 0 <= i < |blocks| => BlockText(blocks[i])), CueBreak)
  }

  /** A well-formed block holds no blank line and does not end with a line break. */
  lemma BlockSingleBreaks(b: Block)
    requires WellFormedBlock(b)
    ensures SingleBreaks(BlockText(b))
  {
    var lines := [b.index, b.start + Arrow + b.end] + b.text;
    WellFormedLines(b.index, b.start, b.end, b.text);
    assert forall i :: 2 <= i < |lines| ==> lines[i] == b.text[i - 2];
    JoinedLinesSingleBreaks(lines);
  }

  /**
   * Chunks without a blank line and not ending with a line break, joined with
   * blank lines: the upload's split gives them back.
   */
  lemma SplitSheet(chunks: seq<string>)
    requires |chunks| >= 1
    requires forall i :: 0 <= i < |chunks| ==> SingleBreaks(chunks[i])
    ensures Split(Join(chunks, CueBreak), CueBreak) == chunks
  {
    forall i | 0 <= i < |chunks| ensures NoMatchStartsIn(chunks[i], CueBreak, CueBreak) && !Contains(chunks[i], CueBreak) {
      SingleBreaksIsolate(chunks[i]);
    }
    SplitJoinPieces(chunks, CueBreak);
  }

  /** Outcomes that are all cues collect to exactly those cues, in order. */
  lemma {:induction false} CollectAllCues<T, E>(outcomes: seq<Result<Option<T>, E>>, xs: seq<T>)
    requires |outcomes| == |xs|
    requires forall i :: 0 <= i < |xs| ==> outcomes[i] == Success(Some(xs[i]))
    ensures Collect(outcomes) == Success(xs)
    decreases |xs|
  {
    if |xs| > 0 {
      assert forall i :: 0 <= i < |xs| - 1 ==> outcomes[1..][i] == outcomes[i + 1];
      CollectAllCues(outcomes[1..], xs[1..]);
      assert xs == [xs[0]] + xs[1..];
    }
  }

  /**
   * The round trip of the whole upload: a file of well-formed blocks separated
   * by blank lines parses to exactly their cues, in order.
   */
  lemma SheetRoundTrip(blocks: seq<Block>)
    requires forall i :: 0 <= i < |blocks| ==> WellFormedBlock(blocks[i])
    ensures ParseCues(Sheet(blocks)) == Success(seq(|blocks|, i requires 0 <= i < |blocks| => BlockCue(blocks[i])))
  {
    var chunks := seq(|blocks|, i requires 0 <= i < |blocks| => BlockText(blocks[i]));
    var cues := seq(|blocks|, i requires 0 <= i < |blocks| => BlockCue(blocks[i]));
    if |blocks| == 0 {
      assert Sheet(blocks) == "";
      assert Split("", CueBreak) == [""];
      assert Split("", LineBreak) == [""];
      assert Outcomes([""]) == [Success(None)];
    } else {
      forall i | 0 <= i < |blocks| ensures SingleBreaks(chunks[i]) {
        BlockSingleBreaks(blocks[i]);
      }
      SplitSheet(chunks);
      var outcomes := Outcomes(chunks);
      forall i | 0 <= i < |blocks| ensures outcomes[i] == Success(Some(cues[i])) {
        var b := blocks[i];
        WellFormedChunk(b.index, b.start, b.end, b.text);
      }
      CollectAllCues(outcomes, cues);
    }
  }

  /** A cue covers time `t` when both ends are numbers and `start ≤ t ≤ end`. */
  predicate Covers(c: Cue, t: real) {
    c.start.Finite? && c.end.Finite? && c.start.value <= t <= c.end.value
  }

  /** `cues.find(c => t >= c.start && t <= c.end)`, as the index found. */
  function FirstCovering(cues: seq<Cue>, t: real): (r: Option<nat>)
    ensures r.Some? ==> r.value < |cues| && Covers(cues[r.value], t)
    ensures r.Some? ==> forall j :: 0 <= j < r.value ==> !Covers(cues[j], t)
    ensures r.None? ==> forall j :: 0 <= j < |cues| ==> !Covers(cues[j], t)
    decreases |cues|
  {
    if |cues| == 0 then None
    else if Covers(cues[0], t) then Some(0)
    else
      match FirstCovering(cues[1..], t)
      case None => None
      case Some(k) => Some(k + 1)
  }

  /** The text shown at time `t`: the first covering cue's, or `""` when none covers it. */
  function SubtitleAt(cues: seq<Cue>, t: real): (text: string)
    ensures (forall i :: 0 <= i < |cues| ==> !Covers(cues[i], t)) ==> text == ""
    ensures forall i :: 0 <= i < |cues| && Covers(cues[i], t) && (forall j :: 0 <= j < i ==> !Covers(cues[j], t)) ==>
              text == cues[i].text
  {
    match FirstCovering(cues, t)
    case None => ""
    case Some(k) => cues[k].text
  }

  /** Cues with numeric times, in order and pairwise disjoint. */
  predicate Sequential(cues: seq<Cue>) {
    && (forall i :: 0 <= i < |cues| ==>
          cues[i].start.Finite? && cues[i].end.Finite? && cues[i].start.value <= cues[i].end.value)
    && (forall i, j :: 0 <= i < j < |cues| ==> cues[i].end.value < cues[j].start.value)
  }

  /** For sequential cues, a time before the first cue or after the last one shows nothing. */
  lemma OutsideCuesIsBlank(cues: seq<Cue>, t: real)
    requires Sequential(cues) && |cues| > 0
    requires t < cues[0].start.value || t > cues[|cues| - 1].end.value
    ensures SubtitleAt(cues, t) == ""
  {
    forall i | 0 <= i < |cues| ensures !Covers(cues[i], t) {
      if 0 < i {
        assert cues[0].end.value < cues[i].start.value;
      }
      if i < |cues| - 1 {
        assert cues[i].end.value < cues[|cues| - 1].start.value;
      }
    }
  }

  /** For sequential cues at most one cue covers any time. */
  lemma AtMostOneCovers(cues: seq<Cue>, t: real, i: int, j: int)
    requires Sequential(cues)
    requires 0 <= i < |cues| && 0 <= j < |cues|
    requires Covers(cues[i], t) && Covers(cues[j], t)
    ensures i == j
  {
  }

  /** The two-cue example: "Hello" at 3 s, nothing at 7 s, "World" at 12 s. */
  lemma TwoCueExample()
    ensures var cues := [Cue(Finite(0.0), Finite(5.0), "Hello"), Cue(Finite(10.0), Finite(15.0), "World")];
      SubtitleAt(cues, 3.0) == "Hello" && SubtitleAt(cues, 7.0) == "" && SubtitleAt(cues, 12.0) == "World"
  {
  }

  /** The subtitle panel: the parsed cues and the text currently shown. */
  class SubtitlePanel {
    var cues: seq<Cue>
    var currentSubtitle: string

    constructor ()
      ensures cues == [] && currentSubtitle == ""
    {
      cues := [];
      currentSubtitle := "";
    }

    /** The file reader's `onload`: a failed parse throws and keeps the old cues. */
    method Upload(text: string) returns (r: Result<seq<Cue>, ParseError>)
      modifies this
      ensures r == ParseCues(text)
      ensures cues == (if r.Success? then r.value else old(cues))
      ensures currentSubtitle == old(currentSubtitle)
    {
      r := ParseCues(text);
      if r.Success? {
        cues := r.value;
      }
    }

    /**
     * One run of the 500 ms interval. The interval exists only while a video
     * element is present and there are cues; it shows the text at the video's
     * time and, on the host, returns the `subtitle` message to broadcast.
     */
    method Tick(videoTime: Option<real>, isHost: bool) returns (broadcast: Option<Msg>)
      modifies this
      ensures cues == old(cues)
      ensures videoTime.None? || cues == [] ==>
        currentSubtitle == old(currentSubtitle) && broadcast == None
      ensures videoTime.Some? && cues != [] ==>
        && currentSubtitle == SubtitleAt(cues, videoTime.value)
        && broadcast == (if isHost then Some(Subtitle(currentSubtitle)) else None)
    {
      broadcast := None;
      if videoTime.Some? && cues != [] {
        currentSubtitle := SubtitleAt(cues, videoTime.value);
        if isHost {
          broadcast := Some(Subtitle(currentSubtitle));
        }
      }
    }
  }
}
