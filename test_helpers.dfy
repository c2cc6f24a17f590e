/** The result writer of the test scripts: an append-only buffer of lines with
    fixed block layouts, written out as the lines joined by newlines. */
module TestHelpers {
  import opened Common

  const HeaderWidth: nat := 80
  const CallRuleWidth: nat := 60

  /** A line of the payload or response block. */
  function Indent(line: string): string {
    "    " + line
  }

  /** The five lines of a `header`. */
  function HeaderBlock(title: string): seq<string> {
    ["", Repeat("=", HeaderWidth), "  " + title, Repeat("=", HeaderWidth), ""]
  }

  /** The payload block: present exactly when there is a payload, given as its
      pretty-printed text. */
  function PayloadBlock(payload: Option<string>): seq<string> {
    if payload.Some? then ["  Payload:"] + Map(Indent, Split(payload.value, '\n')) else []
  }

  /** The lines of one `log_call`; `payload` and `body` are the pretty-printed
      texts and `elapsed` is the elapsed time already formatted with two decimals. */
  function CallBlock(caption: string, verb: string, url: string, payload: Option<string>,
                     status: int, body: string, elapsed: string): seq<string> {
    CallOpening(caption, verb, url) + PayloadBlock(payload) + ResponseBlock(status, body, elapsed)
  }

  /** The rule of 60 '-', the bracketed caption, the method and the URL. */
  function CallOpening(caption: string, verb: string, url: string): seq<string> {
    [Repeat("-", CallRuleWidth), "[" + caption + "]", "  Method : " + verb, "  URL    : " + url]
  }

  /** The status line, the response block, the turnaround line and a blank line. */
  function ResponseBlock(status: int, body: string, elapsed: string): seq<string> {
    ["  Status : " + IntToString(status), "  Response:"]
    + Map(Indent, Split(body, '\n'))
    + ["  Turnaround Time: " + elapsed + " ms", ""]
  }

  class ResultWriter {
    /** The lines collected so far, oldest first. */
    var lines: seq<string>

    constructor ()
      ensures lines == []
    {
      lines := [];
    }

    /** `w`: one more line. */
    method W(text: string := "")
      modifies this
      ensures lines == old(lines) + [text]
    {
      lines := lines + [text];
    }

    /** `sep`: one line of `fill` repeated `width` times. */
    method Sep(fill: string := "=", width: int := 80)
      modifies this
      ensures lines == old(lines) + [Repeat(fill, width)]
    {
      lines := lines + [Repeat(fill, width)];
    }

    method Header(title: string)
      modifies this
      ensures lines == old(lines) + HeaderBlock(title)
    {
      W();
      Sep();
      W("  " + title);
      Sep();
      W();
    }

    /** Appends one indented line per line of `text`. */
    method WriteIndented(text: string)
      modifies this
      ensures lines == old(lines) + Map(Indent, Split(text, '\n'))
    {
      var parts := Split(text, '\n');
      var k := 0;
      while k < |parts|
        invariant 0 <= k <= |parts|
        invariant lines == old(lines) + Map(Indent, parts[..k])
      {
        assert parts[..k + 1] == parts[..k] + [parts[k]];
        MapSnoc(Indent, parts[..k], parts[k]);
        W(Indent(parts[k]));
        ConcatAssoc3(old(lines), Map(Indent, parts[..k]), [Indent(parts[k])]);
        k := k + 1;
      }
      assert parts[..k] == parts;
    }

    method LogCall(caption: string, verb: string, url: string, payload: Option<string>,
                   status: int, body: string, elapsed: string)
      modifies this
      ensures lines == old(lines) + CallBlock(caption, verb, url, payload, status, body, elapsed)
    {
      WriteOpening(caption, verb, url);
      WritePayload(payload);
      WriteResponse(status, body, elapsed);
      ConcatAssoc(old(lines), CallOpening(caption, verb, url), PayloadBlock(payload), ResponseBlock(status, body, elapsed));
    }

    /** The first four lines of `log_call`. */
    method WriteOpening(caption: string, verb: string, url: string)
      modifies this
      ensures lines == old(lines) + CallOpening(caption, verb, url)
    {
      Sep("-", CallRuleWidth);
      W("[" + caption + "]");
      W("  Method : " + verb);
      W("  URL    : " + url);
    }

    /** The payload block of `log_call`, when there is a payload. */
    method WritePayload(payload: Option<string>)
      modifies this
      ensures lines == old(lines) + PayloadBlock(payload)
    {
      if payload.Some? {
        W("  Payload:");
        WriteIndented(payload.value);
        ConcatAssoc3(old(lines), ["  Payload:"], Map(Indent, Split(payload.value, '\n')));
      }
    }

    /** The lines of `log_call` from the status line on. */
    method WriteResponse(status: int, body: string, elapsed: string)
      modifies this
      ensures lines == old(lines) + ResponseBlock(status, body, elapsed)
    {
      W("  Status : " + IntToString(status));
      W("  Response:");
      ghost var statusLines := lines;
      WriteIndented(body);
      ghost var responseLines := lines;
      W("  Turnaround Time: " + elapsed + " ms");
      W();
      ConcatAssoc(old(lines), ["  Status : " + IntToString(status), "  Response:"],
        Map(Indent, Split(body, '\n')), ["  Turnaround Time: " + elapsed + " ms", ""]);
    }

    /** The text `save` writes to the result file. */
    method Save() returns (content: string)
      ensures content == Join(lines, "\n")
    {
      content := Join(lines, "\n");
    }
  }

  // ---------------------------------------------------------------------
  // Properties of the block layouts
  // ---------------------------------------------------------------------

  /** A header is five lines: blank, a rule of 80 '=', the title indented by two,
      the rule again, blank. */
  lemma HeaderShape(title: string)
    ensures |HeaderBlock(title)| == 5
    ensures HeaderBlock(title)[0] == "" && HeaderBlock(title)[4] == ""
    ensures |HeaderBlock(title)[1]| == 80 && HeaderBlock(title)[1] == HeaderBlock(title)[3]
    ensures forall i :: 0 <= i < 80 ==> HeaderBlock(title)[1][i] == '='
    ensures StartsWith(HeaderBlock(title)[2], "  ") && HeaderBlock(title)[2][2..] == title
  {
  }

  /** A `sep` with a non-positive width writes an empty line. */
  lemma NonPositiveWidthRule(fill: string, width: int)
    requires width <= 0
    ensures Repeat(fill, width) == ""
  {
  }

  /** The opening of a call block: a rule of 60 '-', the bracketed caption, the
      method and the URL. */
  lemma CallBlockOpening(caption: string, verb: string, url: string, payload: Option<string>,
                         status: int, body: string, elapsed: string)
    ensures var b := CallBlock(caption, verb, url, payload, status, body, elapsed);
      && |b| >= 9
      && |b[0]| == 60 && (forall i :: 0 <= i < 60 ==> b[0][i] == '-')
      && b[1] == "[" + caption + "]"
      && b[2] == "  Method : " + verb
      && b[3] == "  URL    : " + url
  {
  }

  /** The payload block comes right after the URL line exactly when there is a
      payload, and has one line per line of the payload text plus its caption. */
  lemma PayloadBlockShape(payload: Option<string>)
    ensures payload.None? <==> PayloadBlock(payload) == []
    ensures payload.Some? ==>
      && |PayloadBlock(payload)| == 1 + |Split(payload.value, '\n')|
      && PayloadBlock(payload)[0] == "  Payload:"
  {
  }

  /** After the payload block: the status line, the response caption, the
      response lines, the turnaround line and a final blank line. */
  lemma CallBlockClosing(caption: string, verb: string, url: string, payload: Option<string>,
                         status: int, body: string, elapsed: string)
    ensures var b := CallBlock(caption, verb, url, payload, status, body, elapsed);
      var p := 4 + |PayloadBlock(payload)|;
      var n := |Split(body, '\n')|;
      && |b| == p + 2 + n + 2
      && b[4..p] == PayloadBlock(payload)
      && b[p] == "  Status : " + IntToString(status)
      && b[p + 1] == "  Response:"
      && b[p + 2..p + 2 + n] == Map(Indent, Split(body, '\n'))
      && b[|b| - 2] == "  Turnaround Time: " + elapsed + " ms"
      && b[|b| - 1] == ""
  {
    BlockAround(CallOpening(caption, verb, url), PayloadBlock(payload),
                ["  Status : " + IntToString(status), "  Response:"], Map(Indent, Split(body, '\n')),
                ["  Turnaround Time: " + elapsed + " ms", ""]);
  }

  /** Indexing past a four-line opening and a payload block into a two-line
      head, a middle and a two-line tail. */
  lemma BlockAround(opening: seq<string>, payload: seq<string>, head: seq<string>, mid: seq<string>, tail: seq<string>)
    requires |opening| == 4 && |head| == 2 && |tail| == 2
    ensures var b := opening + payload + (head + mid + tail);
      var p := 4 + |payload|;
      && |b| == p + 2 + |mid| + 2
      && b[4..p] == payload
      && b[p] == head[0] && b[p + 1] == head[1]
      && b[p + 2..p + 2 + |mid|] == mid
      && b[|b| - 2] == tail[0] && b[|b| - 1] == tail[1]
  {
    var b := opening + payload + (head + mid + tail);
    var p := 4 + |payload|;
    assert b[..p] == opening + payload;
    assert b[p..] == head + mid + tail;
    assert b[p + 2..p + 2 + |mid|] == (head + mid + tail)[2..2 + |mid|];
    assert (head + mid + tail)[2..2 + |mid|] == mid;
  }

  /** The saved file splits back into the written lines, as long as no written
      line holds a newline of its own. */
  lemma SavedContentReadsBack(lines: seq<string>)
    requires lines != []
    requires forall k :: 0 <= k < |lines| ==> '\n' !in lines[k]
    ensures Split(Join(lines, "\n"), '\n') == lines
  {
    assert "\n" == ['\n'];
    SplitJoin(lines, '\n');
  }

  /** The indented lines of a text hold no newline: the text is split at every
      newline before each piece is indented, so each line reads back as one. */
  lemma IndentedLinesHaveNoNewline(text: string)
    ensures forall k :: 0 <= k < |Split(text, '\n')| ==> '\n' !in Map(Indent, Split(text, '\n'))[k]
  {
    var parts := Split(text, '\n');
    forall k | 0 <= k < |parts|
      ensures '\n' !in Map(Indent, parts)[k]
    {
      MapIndex(Indent, parts, k);
      assert '\n' !in parts[k];
      assert Indent(parts[k]) == "    " + parts[k];
    }
  }
}
