/** The backend's mock tools: keyword search over Notion documents and Slack
    messages, and the name-to-tool dispatch the agents call. The documents and
    messages are passed in rather than loaded from their JSON files. */
module Tools {
  import opened Wrappers

  datatype NotionDoc = NotionDoc(title: string, content: string, lastUpdated: string)

  datatype SlackMessage = SlackMessage(channel: string, user: string, date: string, text: string)

  // ---------------------------------------------------------------------
  // str.lower() and str.split()
  // ---------------------------------------------------------------------

  function LowerChar(c: char): char {
    if IsUpper(c) then (c as int + 32) as char else c
  }

  predicate IsUpper(c: char) {
    'A' <= c <= 'Z'
  }

  /** `s.lower()` on ASCII letters: each capital becomes the small letter 32
      code points above it, every other character is kept, and no capital is left. */
  function Lower(s: string): (r: string)
    ensures |r| == |s|
    ensures forall i :: 0 <= i < |s| && IsUpper(s[i]) ==> r[i] == (s[i] as int + 32) as char
    ensures forall i :: 0 <= i < |s| && !IsUpper(s[i]) ==> r[i] == s[i]
    ensures forall i :: 0 <= i < |r| ==> !IsUpper(r[i])
  {
    seq(|s|, i requires 0 <= i < |s| => LowerChar(s[i]))
  }

  /** Lowering twice is lowering once, and lowering works piece by piece. */
  lemma LowerSpec(s: string, a: string, b: string)
    ensures Lower(Lower(s)) == Lower(s)
    ensures Lower(a + b) == Lower(a) + Lower(b)
  {
    var once := Lower(s);
    assert forall i :: 0 <= i < |s| ==> Lower(once)[i] == once[i];
    var joined := Lower(a + b);
    forall i | 0 <= i < |a + b| ensures joined[i] == (Lower(a) + Lower(b))[i] {
      if i < |a| {
        assert (a + b)[i] == a[i];
      } else {
        assert (a + b)[i] == b[i - |a|];
      }
    }
  }

  /** The ASCII characters `str.isspace` accepts. */
  predicate IsPySpace(c: char) {
    c == ' ' || ('\t' <= c <= '\r') || ('\U{001C}' <= c <= '\U{001F}')
  }

  predicate NoSpace(s: string) {
    forall i :: 0 <= i < |s| ==> !IsPySpace(s[i])
  }

  predicate AllSpace(s: string) {
    forall i :: 0 <= i < |s| ==> IsPySpace(s[i])
  }

  /** The length of the word at the start of `s`. */
  function WordLength(s: string): (n: nat)
    requires s != [] && !IsPySpace(s[0])
    ensures 1 <= n <= |s| && NoSpace(s[..n])
    ensures n < |s| ==> IsPySpace(s[n])
    decreases |s|
  {
    if |s| == 1 || IsPySpace(s[1]) then 1 else 1 + WordLength(s[1..])
  }

  /** `s.split()`: the maximal runs of non-space characters, in order. */
  function Words(s: string): seq<string>
    decreases |s|
  {
    if s == [] then []
    else if IsPySpace(s[0]) then Words(s[1..])
    else
      var n := WordLength(s);
      [s[..n]] + Words(s[n..])
  }

  /** Every word is non-empty and space-free, and there are no words exactly
      when the text is all white space. */
  lemma {:induction false} WordsSpec(s: string)
    ensures forall k :: 0 <= k < |Words(s)| ==> Words(s)[k] != [] && NoSpace(Words(s)[k])
    ensures Words(s) == [] <==> AllSpace(s)
    decreases |s|
  {
    if s != [] {
      if IsPySpace(s[0]) {
        WordsSpec(s[1..]);
        if AllSpace(s[1..]) {
          forall i | 0 <= i < |s| ensures IsPySpace(s[i]) {
            if i > 0 { assert s[i] == s[1..][i - 1]; }
          }
        }
      } else {
        var n := WordLength(s);
        WordsSpec(s[n..]);
        var ws := Words(s);
        forall k | 0 <= k < |ws| ensures ws[k] != [] && NoSpace(ws[k]) {
          if k > 0 { assert ws[k] == Words(s[n..])[k - 1]; }
        }
      }
    }
  }

  /** The first word's length is fixed by where the first space falls. */
  lemma {:induction false} WordLengthUnique(s: string, n: nat)
    requires s != [] && !IsPySpace(s[0])
    requires 1 <= n <= |s| && NoSpace(s[..n]) && (n < |s| ==> IsPySpace(s[n]))
    ensures WordLength(s) == n
    decreases |s|
  {
    if n > 1 {
      assert s[1] == s[..n][1];
      var t := s[1..];
      var word := t[..n - 1];
      assert NoSpace(word) by {
        forall k | 0 <= k < n - 1 ensures !IsPySpace(word[k]) { assert word[k] == s[..n][k + 1]; }
      }
      if n < |s| { assert t[n - 1] == s[n]; }
      WordLengthUnique(t, n - 1);
    }
  }

  /** A non-empty space-free text is one word, and a white-space character
      cuts a text into the words before it and the words after it: the words
      are the maximal runs of non-space characters, in order. */
  lemma WordsAreRuns(w: string, a: string, c: char, b: string)
    ensures w != [] && NoSpace(w) ==> Words(w) == [w]
    ensures IsPySpace(c) ==> Words(a + [c] + b) == Words(a) + Words(b)
  {
    if w != [] && NoSpace(w) {
      assert w[..|w|] == w;
      WordLengthUnique(w, |w|);
      assert w[|w|..] == [];
    }
    if IsPySpace(c) {
      WordsCut(a, c, b);
    }
  }

  lemma {:induction false} WordsCut(a: string, c: char, b: string)
    requires IsPySpace(c)
    ensures Words(a + [c] + b) == Words(a) + Words(b)
    decreases |a|
  {
    var s := a + [c] + b;
    if a == [] {
      assert s[0] == c && s[1..] == b;
    } else if IsPySpace(a[0]) {
      assert s[0] == a[0];
      assert s[1..] == a[1..] + [c] + b;
      WordsCut(a[1..], c, b);
    } else {
      var m := WordLength(a);
      assert s[..m] == a[..m];
      if m < |a| { assert s[m] == a[m]; } else { assert s[m] == c; }
      assert s[0] == a[0];
      WordLengthUnique(s, m);
      assert s[m..] == a[m..] + [c] + b;
      WordsCut(a[m..], c, b);
      assert Words(a) == [a[..m]] + Words(a[m..]);
      assert Words(s) == [a[..m]] + (Words(a[m..]) + Words(b));
    }
  }

  // ---------------------------------------------------------------------
  // Substring search: `kw in haystack`
  // ---------------------------------------------------------------------

  predicate OccursAt(hay: string, needle: string, i: int) {
    0 <= i && i + |needle| <= |hay| && hay[i..i + |needle|] == needle
  }

  predicate Contains(hay: string, needle: string) {
    exists i :: 0 <= i <= |hay| - |needle| && OccursAt(hay, needle, i)
  }

  /** `any(kw in haystack for kw in keywords)` */
  predicate AnyKeyword(keywords: seq<string>, hay: string) {
    exists k :: 0 <= k < |keywords| && Contains(hay, keywords[k])
  }

  lemma CharOfOccurrence(hay: string, w: string, i: int, p: int)
    requires OccursAt(hay, w, i) && i <= p < i + |w|
    ensures w[p - i] == hay[p]
  {
    assert hay[i..i + |w|][p - i] == hay[p];
  }

  /** An occurrence inside the left part of a text is an occurrence in the left part. */
  lemma OccursInLeft(x: string, rest: string, w: string, i: int)
    requires 0 <= i && i + |w| <= |x|
    ensures OccursAt(x + rest, w, i) <==> OccursAt(x, w, i)
  {
    assert (x + rest)[i..i + |w|] == x[i..i + |w|];
  }

  /** An occurrence inside the right part of a text is an occurrence in the right part. */
  lemma OccursInRight(pre: string, y: string, w: string, i: int)
    requires 0 <= i && i + |w| <= |y|
    ensures OccursAt(pre + y, w, i + |pre|) <==> OccursAt(y, w, i)
  {
    assert (pre + y)[i + |pre|..i + |pre| + |w|] == y[i..i + |w|];
  }

  /** A space-free word occurs in two texts joined by a space exactly when it
      occurs in one of them. */
  lemma ContainsAcrossSpace(x: string, y: string, w: string)
    requires NoSpace(w)
    ensures Contains(x + " " + y, w) <==> Contains(x, w) || Contains(y, w)
  {
    var pre := x + " ";
    var hay := pre + y;
    if Contains(hay, w) {
      var i :| 0 <= i <= |hay| - |w| && OccursAt(hay, w, i);
      if i + |w| <= |x| {
        assert hay == x + (" " + y);
        OccursInLeft(x, " " + y, w, i);
      } else if i > |x| {
        OccursInRight(pre, y, w, i - |pre|);
        assert OccursAt(y, w, i - |pre|);
      } else {
        CharOfOccurrence(hay, w, i, |x|);
        assert false;
      }
    }
    if Contains(x, w) {
      var i :| 0 <= i <= |x| - |w| && OccursAt(x, w, i);
      assert hay == x + (" " + y);
      OccursInLeft(x, " " + y, w, i);
      assert OccursAt(hay, w, i);
    }
    if Contains(y, w) {
      var i :| 0 <= i <= |y| - |w| && OccursAt(y, w, i);
      OccursInRight(pre, y, w, i);
      assert OccursAt(hay, w, i + |pre|);
    }
  }

  // ---------------------------------------------------------------------
  // read_notion_mock and read_slack_mock
  // ---------------------------------------------------------------------

  function Keywords(query: string): seq<string> {
    Words(Lower(query))
  }

  /** A document matches when some keyword occurs in its lowered title and content. */
  predicate NotionMatches(doc: NotionDoc, query: string) {
    AnyKeyword(Keywords(query), Lower(doc.title + " " + doc.content))
  }

  /** A message matches on its text only; channel and user are not searched. */
  predicate SlackMatches(msg: SlackMessage, query: string) {
    AnyKeyword(Keywords(query), Lower(msg.text))
  }

  /** The index of the first matching document. */
  function FindNotion(docs: seq<NotionDoc>, query: string): (found: Option<nat>)
    ensures found.Some? ==>
      && found.value < |docs|
      && NotionMatches(docs[found.value], query)
      && forall j :: 0 <= j < found.value ==> !NotionMatches(docs[j], query)
    ensures found.None? ==> forall j :: 0 <= j < |docs| ==> !NotionMatches(docs[j], query)
    decreases |docs|
  {
    if docs == [] then None
    else if NotionMatches(docs[0], query) then Some(0)
    else
      match FindNotion(docs[1..], query)
      case None => None
      case Some(k) => Some(k + 1)
  }

  /** The index of the first matching message. */
  function FindSlack(msgs: seq<SlackMessage>, query: string): (found: Option<nat>)
    ensures found.Some? ==>
      && found.value < |msgs|
      && SlackMatches(msgs[found.value], query)
      && forall j :: 0 <= j < found.value ==> !SlackMatches(msgs[j], query)
    ensures found.None? ==> forall j :: 0 <= j < |msgs| ==> !SlackMatches(msgs[j], query)
    decreases |msgs|
  {
    if msgs == [] then None
    else if SlackMatches(msgs[0], query) then Some(0)
    else
      match FindSlack(msgs[1..], query)
      case None => None
      case Some(k) => Some(k + 1)
  }

  function FormatNotion(doc: NotionDoc): string {
    "[Notion | " + doc.title + " | Last updated: " + doc.lastUpdated + "] " + doc.content
  }

  function FormatSlack(msg: SlackMessage): string {
    "[Slack | " + msg.channel + " | " + msg.user + " | " + msg.date + "] " + msg.text
  }

  function NotionNotFound(query: string): string {
    "No relevant Notion document found for query: " + query
  }

  function SlackNotFound(query: string): string {
    "No relevant Slack message found for query: " + query
  }

  /** `read_notion_mock`: the first matching document, formatted, or the
      not-found text quoting the query as given. */
  function ReadNotionMock(docs: seq<NotionDoc>, query: string): (r: string)
    ensures (forall j :: 0 <= j < |docs| ==> !NotionMatches(docs[j], query)) ==> r == NotionNotFound(query)
    ensures forall j :: 0 <= j < |docs| && NotionMatches(docs[j], query) &&
                        (forall i :: 0 <= i < j ==> !NotionMatches(docs[i], query)) ==>
                          r == FormatNotion(docs[j])
  {
    match FindNotion(docs, query)
    case Some(k) => FormatNotion(docs[k])
    case None => NotionNotFound(query)
  }

  /** `read_slack_mock`: the first matching message, formatted, or the
      not-found text quoting the query as given. */
  function ReadSlackMock(msgs: seq<SlackMessage>, query: string): (r: string)
    ensures (forall j :: 0 <= j < |msgs| ==> !SlackMatches(msgs[j], query)) ==> r == SlackNotFound(query)
    ensures forall j :: 0 <= j < |msgs| && SlackMatches(msgs[j], query) &&
                        (forall i :: 0 <= i < j ==> !SlackMatches(msgs[i], query)) ==>
                          r == FormatSlack(msgs[j])
  {
    match FindSlack(msgs, query)
    case Some(k) => FormatSlack(msgs[k])
    case None => SlackNotFound(query)
  }

  /** A keyword matches a document when it occurs in the lowered title or in
      the lowered content; the joining space never lets it straddle the two. */
  lemma NotionMatchIsTitleOrContent(doc: NotionDoc, query: string)
    ensures NotionMatches(doc, query) <==>
      exists k :: 0 <= k < |Keywords(query)| &&
        (Contains(Lower(doc.title), Keywords(query)[k]) || Contains(Lower(doc.content), Keywords(query)[k]))
  {
    var kws := Keywords(query);
    WordsSpec(Lower(query));
    var x := Lower(doc.title);
    var y := Lower(doc.content);
    assert Lower(doc.title + " " + doc.content) == x + " " + y;
    forall k | 0 <= k < |kws|
      ensures Contains(x + " " + y, kws[k]) <==> Contains(x, kws[k]) || Contains(y, kws[k])
    {
      ContainsAcrossSpace(x, y, kws[k]);
    }
  }

  /** An empty or all-white-space query has no keywords and finds nothing. */
  lemma BlankQueryFindsNothing(docs: seq<NotionDoc>, msgs: seq<SlackMessage>, query: string)
    requires AllSpace(query)
    ensures ReadNotionMock(docs, query) == NotionNotFound(query)
    ensures ReadSlackMock(msgs, query) == SlackNotFound(query)
  {
    var lowered := Lower(query);
    assert AllSpace(lowered);
    WordsSpec(lowered);
  }

  // ---------------------------------------------------------------------
  // TOOL_REGISTRY and execute_tool
  // ---------------------------------------------------------------------

  datatype Tool = NotionSearch | SlackSearch

  /** The data the two tools search. */
  datatype MockData = MockData(docs: seq<NotionDoc>, messages: seq<SlackMessage>)

  const Registry: map<string, Tool> := map["read_notion_mock" := NotionSearch, "read_slack_mock" := SlackSearch]

  function RunTool(tool: Tool, data: MockData, query: string): string {
    match tool
    case NotionSearch => ReadNotionMock(data.docs, query)
    case SlackSearch => ReadSlackMock(data.messages, query)
  }

  /** `execute_tool`: runs the registered tool, or reports the unknown name. */
  function ExecuteTool(name: string, query: string, data: MockData): (r: string)
    ensures name == "read_notion_mock" ==> r == ReadNotionMock(data.docs, query)
    ensures name == "read_slack_mock" ==> r == ReadSlackMock(data.messages, query)
    ensures name != "read_notion_mock" && name != "read_slack_mock" ==> r == "Unknown tool: " + name
  {
    if name !in Registry then "Unknown tool: " + name
    else RunTool(Registry[name], data, query)
  }
}
