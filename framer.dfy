/** Stream framer: turns the decoded text chunks of a response body into event
    records. Each read appends the normalised chunk to a carry-over buffer,
    splits it into lines and keeps the last, unterminated line for the next read.
    The complete lines are scanned with a fresh `event`/`data` pair: `event:`
    and `data:` lines overwrite the field (last one wins, trimmed), a blank line
    emits a record when the event name is non-empty and then clears both, and
    every other line is ignored. */
module StreamFramer {
  import opened Text

  datatype Record = Record(event: string, data: string)

  /** The scanning state of one read: the two fields and the records emitted so far. */
  datatype Framer = Framer(event: string, data: string, records: seq<Record>)

  function FeedLine(fr: Framer, line: string): Framer {
    if StartsWith(line, "event:") then fr.(event := Trim(line[6..]))
    else if StartsWith(line, "data:") then fr.(data := Trim(line[5..]))
    else if line == "" && fr.event != "" then Framer("", "", fr.records + [Record(fr.event, fr.data)])
    else fr
  }

  /** Scanning the complete lines of one read, from fresh fields. */
  function Scan(lines: seq<string>): Framer
    decreases |lines|
  {
    if lines == [] then Framer("", "", [])
    else FeedLine(Scan(lines[..|lines| - 1]), lines[|lines| - 1])
  }

  /** What one read leaves: the new carry-over buffer and the records it emitted. */
  datatype ReadResult = ReadResult(carry: string, records: seq<Record>)

  /** The complete lines of a text: all pieces but the last. */
  function CompleteLines(text: string): seq<string> {
    Split(text)[..|Split(text)| - 1]
  }

  function ReadChunk(carry: string, chunk: string): ReadResult {
    var pieces := Split(carry + Normalize(chunk));
    ReadResult(pieces[|pieces| - 1], Scan(pieces[..|pieces| - 1]).records)
  }

  /** Reading a whole sequence of chunks, starting from an empty buffer. */
  function Feed(chunks: seq<string>): ReadResult
    decreases |chunks|
  {
    if chunks == [] then ReadResult("", [])
    else
      var before := Feed(chunks[..|chunks| - 1]);
      var now := ReadChunk(before.carry, chunks[|chunks| - 1]);
      ReadResult(now.carry, before.records + now.records)
  }

  predicate IsPrefix<T(==)>(a: seq<T>, b: seq<T>) {
    |a| <= |b| && b[..|a|] == a
  }

  lemma PrefixTrans<T>(a: seq<T>, b: seq<T>, c: seq<T>)
    requires IsPrefix(a, b) && IsPrefix(b, c)
    ensures IsPrefix(a, c)
  {
    assert c[..|b|][..|a|] == c[..|a|];
  }

  lemma PrefixConcat<T>(p: seq<T>, a: seq<T>, b: seq<T>)
    requires IsPrefix(a, b)
    ensures IsPrefix(p + a, p + b)
  {
    assert (p + b)[..|p + a|] == p + b[..|a|];
  }

  // ---------------------------------------------------------------------
  // The carry-over buffer
  // ---------------------------------------------------------------------

  lemma {:induction false} JoinSnoc(lines: seq<string>, last: string)
    requires lines != []
    ensures Join(lines + [last]) == Join(lines) + "\n" + last
    decreases |lines|
  {
    if |lines| == 1 {
      assert lines + [last] == [lines[0], last];
      assert Join([last]) == last;
    } else {
      assert (lines + [last])[1..] == lines[1..] + [last];
      JoinSnoc(lines[1..], last);
    }
  }

  /** After a read, the buffer is the text after the last newline of the old
      buffer plus the normalised chunk: the complete lines joined by newlines,
      a newline, and the buffer give that text back. */
  lemma ReadChunkReconstructs(carry: string, chunk: string)
    ensures var text := carry + Normalize(chunk);
      var lines := CompleteLines(text);
      var r := ReadChunk(carry, chunk);
      && NoNewline(r.carry)
      && AllNoNewline(lines)
      && r.records == Scan(lines).records
      && text == (if lines == [] then "" else Join(lines) + "\n") + r.carry
  {
    var text := carry + Normalize(chunk);
    var pieces := Split(text);
    var lines := pieces[..|pieces| - 1];
    SplitJoin(text);
    assert pieces == lines + [pieces[|pieces| - 1]];
    if lines != [] {
      JoinSnoc(lines, pieces[|pieces| - 1]);
    }
    assert NoNewline(pieces[|pieces| - 1]);
  }

  /** The buffer kept between reads never holds a line ending. */
  lemma {:induction false} CarryIsPartialLine(chunks: seq<string>)
    ensures NoNewline(Feed(chunks).carry) && NoCr(Feed(chunks).carry)
    decreases |chunks|
  {
    if chunks != [] {
      var before := Feed(chunks[..|chunks| - 1]);
      CarryIsPartialLine(chunks[..|chunks| - 1]);
      var chunk := chunks[|chunks| - 1];
      var text := before.carry + Normalize(chunk);
      NormalizeSpec(chunk);
      forall k | 0 <= k < |text| ensures text[k] != '\r' {
        if k >= |before.carry| { assert text[k] == Normalize(chunk)[k - |before.carry|]; }
      }
      var pieces := Split(text);
      SplitJoin(text);
      SplitPieceIsInfix(text, |pieces| - 1);
      var piece := pieces[|pieces| - 1];
      forall k | 0 <= k < |piece| ensures piece[k] != '\r' {
        assert piece[k] in piece;
      }
    }
  }

  /** A piece of a split is part of the text, so it holds no character the text lacks. */
  lemma {:induction false} SplitPieceIsInfix(s: string, i: nat)
    requires i < |Split(s)|
    ensures forall c :: c in Split(s)[i] ==> c in s
    decreases |s|
  {
    if s != [] {
      var rest := Split(s[1..]);
      if s[0] == '\n' {
        if i > 0 { SplitPieceIsInfix(s[1..], i - 1); }
      } else if i == 0 {
        SplitPieceIsInfix(s[1..], 0);
      } else {
        SplitPieceIsInfix(s[1..], i);
      }
    }
  }

  /** A newline-free word followed by a newline is the first piece of the split. */
  lemma {:induction false} SplitLine(w: string, rest: string)
    requires NoNewline(w)
    ensures Split(w + "\n" + rest) == [w] + Split(rest)
    decreases |w|
  {
    var s := w + "\n" + rest;
    if w == [] {
      assert s == "\n" + rest;
      assert s[1..] == rest;
    } else {
      assert s[1..] == w[1..] + "\n" + rest;
      SplitLine(w[1..], rest);
      assert [w[0]] + w[1..] == w;
    }
  }

  // ---------------------------------------------------------------------
  // Records only grow
  // ---------------------------------------------------------------------

  lemma {:induction false} ScanPrefix(lines: seq<string>, k: nat)
    requires k <= |lines|
    ensures IsPrefix(Scan(lines[..k]).records, Scan(lines).records)
    decreases |lines|
  {
    if k < |lines| {
      var init := lines[..|lines| - 1];
      assert lines[..k] == init[..k];
      ScanPrefix(init, k);
    } else {
      assert lines[..k] == lines;
    }
  }

  lemma {:induction false} FeedPrefix(chunks: seq<string>, j: nat)
    requires j <= |chunks|
    ensures IsPrefix(Feed(chunks[..j]).records, Feed(chunks).records)
    decreases |chunks|
  {
    if j < |chunks| {
      var init := chunks[..|chunks| - 1];
      assert chunks[..j] == init[..j];
      FeedPrefix(init, j);
    } else {
      assert chunks[..j] == chunks;
    }
  }

  /** Reading more chunks never changes what the earlier chunks produced. */
  lemma FeedAppend(c1: seq<string>, c2: seq<string>)
    ensures IsPrefix(Feed(c1).records, Feed(c1 + c2).records)
  {
    assert (c1 + c2)[..|c1|] == c1;
    FeedPrefix(c1 + c2, |c1|);
  }

  // ---------------------------------------------------------------------
  // What a record is
  // ---------------------------------------------------------------------

  /** The trimmed remainder of the last line of `lines` that starts with `key`,
      or `otherwise` when no line does. */
  function LastField(lines: seq<string>, key: string, otherwise: string): string
    decreases |lines|
  {
    if lines == [] then otherwise
    else
      var line := lines[|lines| - 1];
      if StartsWith(line, key) then Trim(line[|key|..])
      else LastField(lines[..|lines| - 1], key, otherwise)
  }

  predicate NoBlankLine(lines: seq<string>) {
    forall k :: 0 <= k < |lines| ==> lines[k] != ""
  }

  /** Between blank lines, the last `event:` line and the last `data:` line set
      the fields and every other line is ignored. */
  lemma {:induction false} ScanBlock(before: seq<string>, block: seq<string>)
    requires NoBlankLine(block)
    ensures var fr := Scan(before); var after := Scan(before + block);
      && after.event == LastField(block, "event:", fr.event)
      && after.data == LastField(block, "data:", fr.data)
      && after.records == fr.records
    decreases |block|
  {
    if block != [] {
      var init := block[..|block| - 1];
      assert (before + block)[..|before + block| - 1] == before + init;
      ScanBlock(before, init);
      var line := block[|block| - 1];
      if StartsWith(line, "event:") {
        assert line[0] == 'e';
        assert !StartsWith(line, "data:");
      }
    } else {
      assert before + block == before;
    }
  }

  /** A blank line emits the current fields as a record exactly when the event
      name is non-empty, and only then clears them. */
  lemma BlankLine(before: seq<string>)
    ensures var fr := Scan(before); var after := Scan(before + [""]);
      && (fr.event != "" ==> after == Framer("", "", fr.records + [Record(fr.event, fr.data)]))
      && (fr.event == "" ==> after == fr)
  {
    assert (before + [""])[..|before|] == before;
  }

  /** Every record has a non-empty event name with no white space at its ends. */
  lemma {:induction false} RecordsHaveEvents(lines: seq<string>)
    ensures var fr := Scan(lines);
      && (fr.event != "" ==> !IsJsSpace(fr.event[0]) && !IsJsSpace(fr.event[|fr.event| - 1]))
      && (forall i :: 0 <= i < |fr.records| ==>
            fr.records[i].event != "" && !IsJsSpace(fr.records[i].event[0]))
    decreases |lines|
  {
    if lines != [] {
      RecordsHaveEvents(lines[..|lines| - 1]);
      var line := lines[|lines| - 1];
      if StartsWith(line, "event:") {
        TrimSpec(line[6..]);
      }
    }
  }

  /** An event name the server could send: one line, non-empty, and already trimmed. */
  predicate PlainName(e: string) {
    e != [] && NoNewline(e) && NoCr(e) && !IsJsSpace(e[0]) && !IsJsSpace(e[|e| - 1])
  }

  /** The framing is not invariant under chunk boundaries: the fields are
      cleared at every read, so a record whose lines arrive in two reads is lost,
      where the same text read at once gives the record. */
  lemma RecordSplitAcrossReadsIsDropped(e: string)
    requires PlainName(e)
    ensures Feed(["event:" + e + "\n\n"]).records == [Record(e, "")]
    ensures Feed(["event:" + e + "\n", "\n"]).records == []
  {
    var line := "event:" + e;
    EventLine(e);
    OneRecordInOneRead(line, e);
    FieldsSetInFirstRead(line, e);
    var two := [line + "\n", "\n"];
    assert two[..1] == [line + "\n"];
    assert two[..1][..0] == [];
    NoCarryBlankLine();
  }

  /** The `event:` line naming `e`: it starts with the key, holds no line
      break, and scanning it alone sets the event field to `e`. */
  lemma EventLine(e: string)
    requires PlainName(e)
    ensures var line := "event:" + e;
      && NoNewline(line) && NoCr(line)
      && Scan([line]) == Framer(e, "", [])
      && Scan([line, ""]).records == [Record(e, "")]
  {
    var line := "event:" + e;
    assert line[..6] == "event:";
    assert line[6..] == e;
    forall k | 0 <= k < |line| ensures line[k] != '\n' && line[k] != '\r' {
      if k >= 6 { assert line[k] == e[k - 6]; }
    }
    assert TrimStart(e) == e;
    assert TrimEnd(e) == e;
    assert [line][..0] == [];
    assert [line, ""][..1] == [line];
  }

  /** The text of one read with no CR is split as it stands. */
  lemma PlainRead(text: string)
    requires NoCr(text)
    ensures ReadChunk("", text) == ReadResult(Split(text)[|Split(text)| - 1], Scan(Split(text)[..|Split(text)| - 1]).records)
  {
    NormalizeSpec(text);
    assert "" + Normalize(text) == text;
  }

  lemma NoCrJoin(a: string, b: string)
    requires NoCr(a) && NoCr(b)
    ensures NoCr(a + b)
  {
    forall k | 0 <= k < |a + b| ensures (a + b)[k] != '\r' {
      if k >= |a| { assert (a + b)[k] == b[k - |a|]; }
    }
  }

  lemma OneRecordInOneRead(line: string, e: string)
    requires PlainName(e) && line == "event:" + e
    requires NoNewline(line) && NoCr(line) && Scan([line, ""]).records == [Record(e, "")]
    ensures Feed([line + "\n\n"]).records == [Record(e, "")]
  {
    var text := line + "\n\n";
    NoCrJoin(line, "\n\n");
    PlainRead(text);
    assert text == line + "\n" + "\n";
    SplitLine(line, "\n");
    SplitLine("", "");
    assert "" + "\n" + "" == "\n";
    var pieces := Split(text);
    assert pieces == [line, "", ""];
    assert pieces[..|pieces| - 1] == [line, ""];
    assert [text][..0] == [];
  }

  lemma FieldsSetInFirstRead(line: string, e: string)
    requires NoNewline(line) && NoCr(line) && Scan([line]) == Framer(e, "", [])
    ensures Feed([line + "\n"]) == ReadResult("", [])
  {
    var text := line + "\n";
    NoCrJoin(line, "\n");
    PlainRead(text);
    assert text == line + "\n" + "";
    SplitLine(line, "");
    var pieces := Split(text);
    assert pieces == [line, ""];
    assert pieces[..|pieces| - 1] == [line];
    assert [text][..0] == [];
  }

  lemma NoCarryBlankLine()
    ensures ReadChunk("", "\n") == ReadResult("", [])
  {
    NormalizeSpec("\n");
    assert "" + "\n" == "\n";
    SplitLine("", "");
    assert "" + "\n" + "" == "\n";
    assert [""][..0] == [];
    assert Scan([""]) == Framer("", "", []);
  }
}
