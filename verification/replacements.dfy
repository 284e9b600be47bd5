/** The `getEdits` handler: turns the formatter's
    `<replacements><replacement offset=".." length="..">TEXT</replacement>...</replacements>`
    output, as the `sax` parser reports it event by event, into editor edits.
    Both revisions of the driver carry the same handler. */
module Replacements {
  import opened JsString
  import opened Utf8
  import opened ByteToOffset

  /** The parser callbacks, in the order the parser makes them. The
      `offset` and `length` attributes of an open tag are given as the
      numbers `parseInt` reads from them; other tags ignore them. */
  datatype Event =
    | OpenTag(name: String, offset: nat, length: nat)
    | Text(text: String)
    | CloseTag(name: String)
    | End
    | Error(message: String)

  /** `new TextEdit(new Range(positionAt(start), positionAt(end)), newText)`,
      positions being taken as code-unit offsets. */
  datatype Edit = Edit(start: nat, end: nat, newText: String)

  /** The values the handler rejects with: "Malformed output.",
      "Unexpected tag NAME." and the parser error's message. */
  datatype Reason = MalformedOutput | UnexpectedTag(name: String) | ParserError(message: String)

  /** The handler's promise: a promise settles once, later `resolve` and
      `reject` calls do nothing. `Resolved` carries no copy of the list:
      `resolve(edits)` hands over the array itself. */
  datatype Settlement = Unsettled | Resolved | Rejected(reason: Reason)

  /** `currentEdit`, already translated to code units. */
  datatype Pending = Pending(offset: nat, length: nat, text: String)

  /** Everything the handler's callbacks read and write, including the
      translator's cache entry. */
  datatype Handler = Handler(current: Option<Pending>, edits: seq<Edit>, settled: Settlement, anchor: Anchor)

  /** What a consumer of the returned promise observes. */
  datatype Outcome = Waiting | Fulfilled(edits: seq<Edit>) | Failed(reason: Reason)

  const REPLACEMENTS: String := [114, 101, 112, 108, 97, 99, 101, 109, 101, 110, 116, 115]
  const REPLACEMENT: String := [114, 101, 112, 108, 97, 99, 101, 109, 101, 110, 116]

  function Initial(anchor: Anchor): Handler
  {
    Handler(None, [], Unsettled, anchor)
  }

  function Settle(h: Handler, s: Settlement): Handler
  {
    if h.settled == Unsettled then h.(settled := s) else h
  }

  /** `onopentag`: a pending edit makes it reject, and it carries on all
      the same; `replacement` starts a new (translated) edit, anything
      other than `replacements` rejects. */
  function OnOpenTag(bytes: seq<Byte>, h: Handler, name: String, offset: nat, length: nat): Handler
  {
    var h1 := if h.current.Some? then Settle(h, Rejected(MalformedOutput)) else h;
    if name == REPLACEMENTS then h1
    else if name == REPLACEMENT then
      var charOffset := TranslateOffset(bytes, h1.anchor, offset);
      var charLength := TranslateLength(bytes, offset, length);
      h1.(current := Some(Pending(charOffset, charLength, [])), anchor := Anchor(offset, charOffset))
    else Settle(h1, Rejected(UnexpectedTag(name)))
  }

  /** `ontext`: the text replaces whatever the pending edit held. */
  function OnText(h: Handler, text: String): Handler
  {
    if h.current.None? then h else h.(current := Some(h.current.value.(text := text)))
  }

  /** `onclosetag`, whatever the tag: the pending edit becomes an edit. */
  function OnCloseTag(h: Handler): Handler
  {
    match h.current
    case None => h
    case Some(p) => h.(edits := h.edits + [Edit(p.offset, p.offset + p.length, p.text)], current := None)
  }

  function Handle(bytes: seq<Byte>, h: Handler, e: Event): Handler
  {
    match e
    case OpenTag(name, offset, length) => OnOpenTag(bytes, h, name, offset, length)
    case Text(text) => OnText(h, text)
    case CloseTag(_) => OnCloseTag(h)
    case End => Settle(h, Resolved)
    case Error(message) => Settle(h, Rejected(ParserError(message)))
  }

  /** The handler state after a sequence of events. */
  function Process(bytes: seq<Byte>, h: Handler, events: seq<Event>): Handler
    decreases |events|
  {
    if events == [] then h
    else Handle(bytes, Process(bytes, h, events[..|events| - 1]), events[|events| - 1])
  }

  lemma ProcessSnoc(bytes: seq<Byte>, h: Handler, events: seq<Event>, e: Event)
    ensures Process(bytes, h, events + [e]) == Handle(bytes, Process(bytes, h, events), e)
  {
    assert (events + [e])[..|events|] == events;
  }

  lemma ProcessOne(bytes: seq<Byte>, h: Handler, e: Event)
    ensures Process(bytes, h, [e]) == Handle(bytes, h, e)
  {
    ProcessSnoc(bytes, h, [], e);
    assert [] + [e] == [e];
  }

  function Observe(h: Handler): Outcome
  {
    match h.settled
    case Unsettled => Waiting
    case Resolved => Fulfilled(h.edits)
    case Rejected(r) => Failed(r)
  }

  /** What `onopentag` does: it pushes no edit and never unsettles the
      promise; with an edit pending it rejects as malformed; a
      `replacement` tag starts an empty edit and re-anchors the cache at
      its byte offset, any other tag leaves both alone. */
  lemma OpenTagEffect(bytes: seq<Byte>, h: Handler, name: String, offset: nat, length: nat)
    ensures var r := OnOpenTag(bytes, h, name, offset, length);
      r.edits == h.edits &&
      (h.current.Some? && h.settled == Unsettled ==> r.settled == Rejected(MalformedOutput)) &&
      (h.settled != Unsettled ==> r.settled == h.settled) &&
      (name != REPLACEMENTS && name != REPLACEMENT && h.settled == Unsettled ==> r.settled != Unsettled) &&
      (name == REPLACEMENT ==> r.current.Some? && r.current.value.text == [] && r.anchor.byte == offset) &&
      (name != REPLACEMENT ==> r.current == h.current && r.anchor == h.anchor)
  {
  }

  /** What `ontext` and `onclosetag` do: the text replaces that of the
      pending edit and nothing else; the close tag appends the pending
      edit, unchanged, after the edits already pushed, and clears it. */
  lemma TextAndCloseEffect(h: Handler, text: String)
    ensures var r := OnText(h, text);
      r.edits == h.edits && r.settled == h.settled && r.anchor == h.anchor &&
      (r.current.Some? <==> h.current.Some?) &&
      (h.current.Some? ==> r.current.value == h.current.value.(text := text))
    ensures var r := OnCloseTag(h);
      r.current.None? && r.settled == h.settled && r.anchor == h.anchor &&
      (h.current.None? ==> r == h) &&
      (h.current.Some? ==> var p := h.current.value;
        r.edits == h.edits + [Edit(p.offset, p.offset + p.length, p.text)])
  {
  }

  /** One callback keeps every edit already pushed, in front, and a settled
      promise as it was; the end of the input and a parser error settle it. */
  lemma HandleKeepsHistory(bytes: seq<Byte>, h: Handler, e: Event)
    ensures var r := Handle(bytes, h, e);
      |h.edits| <= |r.edits| && r.edits[..|h.edits|] == h.edits &&
      (h.settled != Unsettled ==> r.settled == h.settled) &&
      (e.End? && h.settled == Unsettled ==> r.settled == Resolved) &&
      (e.Error? && h.settled == Unsettled ==> r.settled == Rejected(ParserError(e.message)))
  {
    OpenTagEffect(bytes, h, if e.OpenTag? then e.name else [], if e.OpenTag? then e.offset else 0,
      if e.OpenTag? then e.length else 0);
  }

  /** A whole run of callbacks: the edits pushed before stay in front, and
      once the promise has settled nothing changes how it settled. */
  lemma {:induction false} ProcessKeepsHistory(bytes: seq<Byte>, h: Handler, events: seq<Event>)
    ensures var r := Process(bytes, h, events);
      |h.edits| <= |r.edits| && r.edits[..|h.edits|] == h.edits &&
      (h.settled != Unsettled ==> r.settled == h.settled)
    decreases |events|
  {
    if events != [] {
      var init := events[..|events| - 1];
      var mid := Process(bytes, h, init);
      ProcessKeepsHistory(bytes, h, init);
      HandleKeepsHistory(bytes, mid, events[|events| - 1]);
      var r := Process(bytes, h, events);
      assert r.edits[..|h.edits|] == mid.edits[..|mid.edits|][..|h.edits|];
    }
  }

  /** A consumer waits exactly while the promise is unsettled, receives the
      edit list exactly when it resolved, and the reason when it rejected. */
  lemma ObserveReflectsSettlement(h: Handler)
    ensures Observe(h).Waiting? <==> h.settled == Unsettled
    ensures Observe(h).Fulfilled? <==> h.settled == Resolved
    ensures Observe(h).Fulfilled? ==> Observe(h).edits == h.edits
    ensures Observe(h).Failed? ==> h.settled == Rejected(Observe(h).reason)
  {
  }

  /** The variables the parser callbacks of `getEdits` close over: the
      pending edit, the edit list and the promise, plus the document text
      and the translator cache they pass to the translator. */
  class Collector {
    var currentEdit: EditInfo?
    var edits: seq<Edit>
    var settled: Settlement
    const cache: OffsetCache
    const codeContent: String

    /** The handler state these variables hold. */
    ghost function View(): Handler
      reads this, currentEdit, cache
    {
      Handler(if currentEdit == null then None else Some(Pending(currentEdit.offset, currentEdit.length, currentEdit.text)),
              edits, settled, cache.Current())
    }

    constructor(cache: OffsetCache, codeContent: String)
      ensures this.cache == cache && this.codeContent == codeContent
      ensures View() == Initial(cache.Current())
    {
      this.cache := cache;
      this.codeContent := codeContent;
      currentEdit := null;
      edits := [];
      settled := Unsettled;
    }

    /** `parser.onopentag`. */
    method HandleOpenTag(name: String, offset: nat, length: nat)
      modifies this, cache
      ensures View() == OnOpenTag(Utf8Bytes(codeContent), old(View()), name, offset, length)
      ensures currentEdit != null ==> currentEdit == old(currentEdit) || fresh(currentEdit)
    {
      ghost var h := View();
      ghost var bytes := Utf8Bytes(codeContent);
      if currentEdit != null && settled == Unsettled {
        settled := Rejected(MalformedOutput);
      }
      ghost var h1 := View();
      assert h1 == if h.current.Some? then Settle(h, Rejected(MalformedOutput)) else h;
      if name == REPLACEMENTS {
      } else if name == REPLACEMENT {
        var edit := new EditInfo(offset, length);
        var _ := cache.Translate(codeContent, edit);
        currentEdit := edit;
        assert View() == h1.(current := Some(Pending(edit.offset, edit.length, [])), anchor := cache.Current());
      } else if settled == Unsettled {
        settled := Rejected(UnexpectedTag(name));
      }
    }

    /** `parser.ontext`. */
    method HandleText(text: String)
      modifies currentEdit
      ensures View() == OnText(old(View()), text)
    {
      if currentEdit != null {
        currentEdit.text := text;
      }
    }

    /** `parser.onclosetag`. */
    method HandleCloseTag()
      modifies this
      ensures View() == OnCloseTag(old(View()))
      ensures currentEdit == null
    {
      if currentEdit != null {
        edits := edits + [Edit(currentEdit.offset, currentEdit.offset + currentEdit.length, currentEdit.text)];
        currentEdit := null;
      }
    }

    /** `parser.onend` and `parser.onerror`: the first settlement wins. */
    method HandleSettle(s: Settlement)
      modifies this
      ensures View() == Settle(old(View()), s)
      ensures currentEdit == old(currentEdit)
    {
      if settled == Unsettled {
        settled := s;
      }
    }
  }

  /** `getEdits`: feeds the parser's events to the callbacks, which update
      the pending edit, the edit list, the promise and, through the
      translator, the shared cache. */
  method GetEdits(cache: OffsetCache, codeContent: String, events: seq<Event>) returns (result: Outcome)
    modifies cache
    ensures var h := Process(Utf8Bytes(codeContent), Initial(old(cache.Current())), events);
      result == Observe(h) && cache.Current() == h.anchor
  {
    ghost var bytes := Utf8Bytes(codeContent);
    ghost var h0 := Initial(cache.Current());
    var c := new Collector(cache, codeContent);
    var i := 0;
    while i < |events|
      invariant 0 <= i <= |events|
      invariant c.cache == cache && c.codeContent == codeContent && fresh(c)
      invariant c.currentEdit != null ==> fresh(c.currentEdit)
      invariant c.View() == Process(bytes, h0, events[..i])
    {
      assert events[..i + 1] == events[..i] + [events[i]];
      ProcessSnoc(bytes, h0, events[..i], events[i]);
      match events[i] {
        case OpenTag(name, offset, length) => c.HandleOpenTag(name, offset, length);
        case Text(text) => c.HandleText(text);
        case CloseTag(_) => c.HandleCloseTag();
        case End => c.HandleSettle(Resolved);
        case Error(message) => c.HandleSettle(Rejected(ParserError(message)));
      }
      i := i + 1;
    }
    assert events[..i] == events;
    result := match c.settled
      case Unsettled => Waiting
      case Resolved => Fulfilled(c.edits)
      case Rejected(r) => Failed(r);
  }

  // ---------------------------------------------------------------------
  // Properties

  lemma {:induction false} ProcessAppend(bytes: seq<Byte>, h: Handler, a: seq<Event>, b: seq<Event>)
    ensures Process(bytes, h, a + b) == Process(bytes, Process(bytes, h, a), b)
    decreases |b|
  {
    if b == [] {
      assert a + b == a;
    } else {
      assert (a + b)[..|a + b| - 1] == a + b[..|b| - 1];
      ProcessAppend(bytes, h, a, b[..|b| - 1]);
    }
  }

  /** The first settlement wins: once the promise is resolved or rejected,
      no later event changes that. */
  lemma {:induction false} FirstSettlementWins(bytes: seq<Byte>, h: Handler, events: seq<Event>)
    requires h.settled != Unsettled
    ensures Process(bytes, h, events).settled == h.settled
    decreases |events|
  {
    if events != [] {
      FirstSettlementWins(bytes, h, events[..|events| - 1]);
    }
  }

  /** Opening any tag while an edit is pending rejects with "Malformed
      output.", and the outcome stays rejected whatever follows. */
  lemma OpenWhilePendingRejects(bytes: seq<Byte>, h: Handler, name: String, offset: nat, length: nat, rest: seq<Event>)
    requires h.current.Some? && h.settled == Unsettled
    ensures Observe(Process(bytes, h, [OpenTag(name, offset, length)] + rest)) == Failed(MalformedOutput)
  {
    ProcessAppend(bytes, h, [OpenTag(name, offset, length)], rest);
    assert [OpenTag(name, offset, length)][..0] == [];
    FirstSettlementWins(bytes, Process(bytes, h, [OpenTag(name, offset, length)]), rest);
  }

  /** Opening a tag other than `replacements` and `replacement` rejects
      with "Unexpected tag NAME.", for good. */
  lemma UnknownTagRejects(bytes: seq<Byte>, h: Handler, name: String, offset: nat, length: nat, rest: seq<Event>)
    requires h.current.None? && h.settled == Unsettled
    requires name != REPLACEMENTS && name != REPLACEMENT
    ensures Observe(Process(bytes, h, [OpenTag(name, offset, length)] + rest)) == Failed(UnexpectedTag(name))
  {
    ProcessAppend(bytes, h, [OpenTag(name, offset, length)], rest);
    assert [OpenTag(name, offset, length)][..0] == [];
    FirstSettlementWins(bytes, Process(bytes, h, [OpenTag(name, offset, length)]), rest);
  }

  /** A replacement opened inside another one,
      `<replacements><replacement offset="0" length="1">x<replacement offset="2" length="1">y</replacement></replacement></replacements>`,
      fails with "Malformed output." and delivers no edits. */
  lemma NestedReplacementFails(bytes: seq<Byte>, anchor: Anchor, x: String, y: String)
    ensures Observe(Process(bytes, Initial(anchor),
      [OpenTag(REPLACEMENTS, 0, 0), OpenTag(REPLACEMENT, 0, 1), Text(x), OpenTag(REPLACEMENT, 2, 1),
       Text(y), CloseTag(REPLACEMENT), CloseTag(REPLACEMENT), CloseTag(REPLACEMENTS), End]))
      == Failed(MalformedOutput)
  {
    var a, b, c := OpenTag(REPLACEMENTS, 0, 0), OpenTag(REPLACEMENT, 0, 1), Text(x);
    var rest := [Text(y), CloseTag(REPLACEMENT), CloseTag(REPLACEMENT), CloseTag(REPLACEMENTS), End];
    assert REPLACEMENTS != REPLACEMENT by { assert |REPLACEMENTS| != |REPLACEMENT|; }
    var h1 := Handle(bytes, Initial(anchor), a);
    ProcessOne(bytes, Initial(anchor), a);
    var h2 := Handle(bytes, h1, b);
    ProcessSnoc(bytes, Initial(anchor), [a], b);
    assert [a] + [b] == [a, b];
    var h3 := Handle(bytes, h2, c);
    ProcessSnoc(bytes, Initial(anchor), [a, b], c);
    assert [a, b] + [c] == [a, b, c];
    assert h3.current.Some? && h3.settled == Unsettled;
    OpenWhilePendingRejects(bytes, h3, REPLACEMENT, 2, 1, rest);
    assert [a, b, c] + ([OpenTag(REPLACEMENT, 2, 1)] + rest) ==
      [a, b, c, OpenTag(REPLACEMENT, 2, 1),
       Text(y), CloseTag(REPLACEMENT), CloseTag(REPLACEMENT), CloseTag(REPLACEMENTS), End];
    ProcessAppend(bytes, Initial(anchor), [a, b, c], [OpenTag(REPLACEMENT, 2, 1)] + rest);
  }

  /** Text overwrites: after several text events the pending edit holds the
      last one only. */
  lemma {:induction false} LastTextWins(bytes: seq<Byte>, h: Handler, texts: seq<String>)
    requires h.current.Some? && texts != []
    ensures Process(bytes, h, seq(|texts|, i requires 0 <= i < |texts| => Text(texts[i]))) ==
      h.(current := Some(h.current.value.(text := texts[|texts| - 1])))
    decreases |texts|
  {
    var events := seq(|texts|, i requires 0 <= i < |texts| => Text(texts[i]));
    var n := |texts| - 1;
    if n == 0 {
      assert events[..0] == [];
    } else {
      assert events[..n] == seq(n, i requires 0 <= i < n => Text(texts[..n][i]));
      LastTextWins(bytes, h, texts[..n]);
    }
  }

  /** Text and close events with no pending edit (stray character data,
      `</replacements>`) change nothing. */
  lemma {:induction false} StrayEventsIgnored(bytes: seq<Byte>, h: Handler, events: seq<Event>)
    requires h.current.None?
    requires forall i | 0 <= i < |events| :: events[i].Text? || events[i].CloseTag?
    ensures Process(bytes, h, events) == h
    decreases |events|
  {
    if events != [] {
      StrayEventsIgnored(bytes, h, events[..|events| - 1]);
    }
  }

  /** `<replacements></replacements>` resolves to no edits. */
  lemma EmptyDocumentResolvesEmpty(bytes: seq<Byte>, anchor: Anchor)
    ensures Observe(Process(bytes, Initial(anchor), [OpenTag(REPLACEMENTS, 0, 0), CloseTag(REPLACEMENTS), End]))
      == Fulfilled([])
  {
    var events := [OpenTag(REPLACEMENTS, 0, 0), CloseTag(REPLACEMENTS), End];
    var h := Initial(anchor);
    assert events[..1][..0] == [];
    assert Process(bytes, h, events[..1]) == h;
    assert events[..2][..1] == events[..1];
    assert Process(bytes, h, events[..2]) == h;
    assert events[..3][..2] == events[..2];
  }

  // ---------------------------------------------------------------------
  // Well-formed output

  /** One `<replacement>` element as the formatter writes it: byte offset,
      byte length and replacement text. */
  datatype Replacement = Replacement(offset: nat, length: nat, text: String)

  /** The events of one element; an empty element has no text event. */
  function ElementEvents(r: Replacement): seq<Event>
  {
    [OpenTag(REPLACEMENT, r.offset, r.length)] + (if r.text == [] then [] else [Text(r.text)]) +
    [CloseTag(REPLACEMENT)]
  }

  function ElementsEvents(rs: seq<Replacement>): seq<Event>
  {
    if rs == [] then [] else ElementsEvents(rs[..|rs| - 1]) + ElementEvents(rs[|rs| - 1])
  }

  /** The events of a whole well-formed output document. */
  function DocumentEvents(rs: seq<Replacement>): seq<Event>
  {
    [OpenTag(REPLACEMENTS, 0, 0)] + ElementsEvents(rs) + [CloseTag(REPLACEMENTS)] + [End]
  }

  /** The edit a replacement should become: its byte span measured in code
      units of the decoded document prefix. */
  function Expected(bytes: seq<Byte>, r: Replacement): Edit
  {
    var start := DecodedLength(Slice(bytes, 0, r.offset));
    Edit(start, start + DecodedLength(Slice(bytes, r.offset, r.offset + r.length)), r.text)
  }

  function ExpectedAll(bytes: seq<Byte>, rs: seq<Replacement>): (r: seq<Edit>)
    ensures |r| == |rs|
  {
    if rs == [] then [] else ExpectedAll(bytes, rs[..|rs| - 1]) + [Expected(bytes, rs[|rs| - 1])]
  }

  /** One element, from a state with no pending edit and a right cache
      entry, pushes exactly its expected edit and leaves a right entry. */
  lemma ElementPushesOneEdit(code: String, h: Handler, r: Replacement)
    requires h.current.None? && Anchored(code, h.anchor) && IsBoundary(code, r.offset)
    ensures var h' := Process(Utf8Bytes(code), h, ElementEvents(r));
      h'.current.None? && h'.settled == h.settled && Anchored(code, h'.anchor) &&
      h'.edits == h.edits + [Expected(Utf8Bytes(code), r)]
  {
    var bytes := Utf8Bytes(code);
    var events := ElementEvents(r);
    var e := Expected(bytes, r);
    var open := OpenTag(REPLACEMENT, r.offset, r.length);
    var afterOpen := h.(current := Some(Pending(e.start, e.end - e.start, [])), anchor := Anchor(r.offset, e.start));
    assert Process(bytes, h, [open]) == afterOpen by {
      ProcessOne(bytes, h, open);
      FastPathAgrees(code, h.anchor, r.offset);
      assert REPLACEMENT != REPLACEMENTS by { assert |REPLACEMENTS| != |REPLACEMENT|; }
    }
    assert Anchored(code, afterOpen.anchor) by {
      TranslateKeepsAnchor(code, h.anchor, r.offset);
      FastPathAgrees(code, h.anchor, r.offset);
    }
    ElementAfterOpen(bytes, h, r, afterOpen);
  }

  /** Once the open tag of an element has left an empty pending edit, the
      rest of the element fills in its text and pushes it. */
  lemma ElementAfterOpen(bytes: seq<Byte>, h: Handler, r: Replacement, afterOpen: Handler)
    requires Process(bytes, h, [OpenTag(REPLACEMENT, r.offset, r.length)]) == afterOpen
    requires afterOpen.current.Some? && afterOpen.current.value.text == []
    ensures var p := afterOpen.current.value;
      Process(bytes, h, ElementEvents(r)) ==
      afterOpen.(current := None, edits := afterOpen.edits + [Edit(p.offset, p.offset + p.length, r.text)])
  {
    var open, close := OpenTag(REPLACEMENT, r.offset, r.length), CloseTag(REPLACEMENT);
    var body := (if r.text == [] then [] else [Text(r.text)]) + [close];
    assert ElementEvents(r) == [open] + body;
    ProcessAppend(bytes, h, [open], body);
    ElementBody(bytes, afterOpen, r.text);
  }

  /** The text and the close tag of an element, after its open tag. */
  lemma ElementBody(bytes: seq<Byte>, h: Handler, text: String)
    requires h.current.Some? && h.current.value.text == []
    ensures var p := h.current.value;
      Process(bytes, h, (if text == [] then [] else [Text(text)]) + [CloseTag(REPLACEMENT)]) ==
      h.(current := None, edits := h.edits + [Edit(p.offset, p.offset + p.length, text)])
  {
    var close := CloseTag(REPLACEMENT);
    if text == [] {
      var none: seq<Event> := [];
      assert none + [close] == [close];
      ProcessOne(bytes, h, close);
    } else {
      var p := h.current.value;
      var filled := h.(current := Some(p.(text := text)));
      assert Process(bytes, h, [Text(text)]) == filled by {
        ProcessOne(bytes, h, Text(text));
      }
      ProcessSnoc(bytes, h, [Text(text)], close);
      assert Handle(bytes, filled, close) == OnCloseTag(filled);
    }
  }

  /** Every replacement starts on a character boundary of `code`. */
  ghost predicate OnBoundaries(code: String, rs: seq<Replacement>)
    decreases |rs|
  {
    rs == [] || (OnBoundaries(code, rs[..|rs| - 1]) && IsBoundary(code, rs[|rs| - 1].offset))
  }

  lemma {:induction false} OnBoundariesAll(code: String, rs: seq<Replacement>)
    requires forall i | 0 <= i < |rs| :: IsBoundary(code, rs[i].offset)
    ensures OnBoundaries(code, rs)
    decreases |rs|
  {
    if rs != [] {
      var init := rs[..|rs| - 1];
      assert forall i | 0 <= i < |init| :: init[i] == rs[i];
      OnBoundariesAll(code, init);
    }
  }

  lemma ProcessElementsSnoc(bytes: seq<Byte>, h: Handler, rs: seq<Replacement>)
    requires rs != []
    ensures Process(bytes, h, ElementsEvents(rs)) ==
      Process(bytes, Process(bytes, h, ElementsEvents(rs[..|rs| - 1])), ElementEvents(rs[|rs| - 1]))
  {
    ProcessAppend(bytes, h, ElementsEvents(rs[..|rs| - 1]), ElementEvents(rs[|rs| - 1]));
  }

  /** Well-formed output on a document whose cache entry is right: every
      element that opens and closes pushes exactly one edit, in document
      order, spanning the element's bytes measured in code units and
      holding its text; the cache entry stays right. */
  lemma {:induction false} ElementsPushEdits(code: String, h: Handler, rs: seq<Replacement>)
    requires h.current.None? && Anchored(code, h.anchor)
    requires OnBoundaries(code, rs)
    ensures var h' := Process(Utf8Bytes(code), h, ElementsEvents(rs));
      h'.current.None? && h'.settled == h.settled && Anchored(code, h'.anchor) &&
      h'.edits == h.edits + ExpectedAll(Utf8Bytes(code), rs)
    decreases |rs|
  {
    var bytes := Utf8Bytes(code);
    if rs == [] {
      assert h.edits + [] == h.edits;
    } else {
      var init := rs[..|rs| - 1];
      ElementsPushEdits(code, h, init);
      ElementsPushEditsStep(code, h, rs);
      assert ExpectedAll(bytes, rs) == ExpectedAll(bytes, init) + [Expected(bytes, rs[|rs| - 1])];
    }
  }

  /** The induction step of `ElementsPushEdits`: the last element, after
      the ones before it. */
  lemma ElementsPushEditsStep(code: String, h: Handler, rs: seq<Replacement>)
    requires rs != [] && IsBoundary(code, rs[|rs| - 1].offset)
    requires var mid := Process(Utf8Bytes(code), h, ElementsEvents(rs[..|rs| - 1]));
      mid.current.None? && Anchored(code, mid.anchor)
    ensures var mid := Process(Utf8Bytes(code), h, ElementsEvents(rs[..|rs| - 1]));
      var last := Process(Utf8Bytes(code), h, ElementsEvents(rs));
      last.current.None? && last.settled == mid.settled && Anchored(code, last.anchor) &&
      last.edits == mid.edits + [Expected(Utf8Bytes(code), rs[|rs| - 1])]
  {
    var bytes := Utf8Bytes(code);
    var mid := Process(bytes, h, ElementsEvents(rs[..|rs| - 1]));
    ProcessElementsSnoc(bytes, h, rs);
    ElementPushesOneEdit(code, mid, rs[|rs| - 1]);
  }

  /** The whole document: well-formed output whose offsets fall on
      character boundaries of the document resolves to exactly the
      expected edits, in order. */
  lemma {:induction false} WellFormedOutputResolves(code: String, anchor: Anchor, rs: seq<Replacement>)
    requires Anchored(code, anchor)
    requires OnBoundaries(code, rs)
    ensures Observe(Process(Utf8Bytes(code), Initial(anchor), DocumentEvents(rs))) ==
      Fulfilled(ExpectedAll(Utf8Bytes(code), rs))
  {
    var bytes := Utf8Bytes(code);
    var h0 := Initial(anchor);
    var first, close := OpenTag(REPLACEMENTS, 0, 0), CloseTag(REPLACEMENTS);
    var body := ElementsEvents(rs);
    var h2 := Process(bytes, h0, [first] + body);
    assert h2 == Process(bytes, h0, body) by {
      ProcessOne(bytes, h0, first);
      ProcessAppend(bytes, h0, [first], body);
    }
    assert h2.current.None? && h2.settled == Unsettled && h2.edits == ExpectedAll(bytes, rs) by {
      ElementsPushEdits(code, h0, rs);
    }
    assert Process(bytes, h0, [first] + body + [close]) == h2 by {
      ProcessSnoc(bytes, h0, [first] + body, close);
    }
    ProcessSnoc(bytes, h0, [first] + body + [close], End);
  }

  // ---------------------------------------------------------------------
  // The shared cache

  /** One empty `replacement` element at byte `offset`, whose translation
      from the cache entry `a` is `charOffset`. */
  lemma OneEmptyElement(bytes: seq<Byte>, a: Anchor, offset: nat, charOffset: nat)
    requires TranslateOffset(bytes, a, offset) == charOffset && TranslateLength(bytes, offset, 0) == 0
    ensures Observe(Process(bytes, Initial(a), [OpenTag(REPLACEMENTS, 0, 0), OpenTag(REPLACEMENT, offset, 0),
                                                CloseTag(REPLACEMENT), CloseTag(REPLACEMENTS), End]))
      == Fulfilled([Edit(charOffset, charOffset, [])])
  {
    assert REPLACEMENT != REPLACEMENTS by { assert |REPLACEMENTS| != |REPLACEMENT|; }
    var e0, e1, e2, e3, e4 := OpenTag(REPLACEMENTS, 0, 0), OpenTag(REPLACEMENT, offset, 0), CloseTag(REPLACEMENT),
                              CloseTag(REPLACEMENTS), End;
    var h0 := Initial(a);
    var h2 := Handler(Some(Pending(charOffset, 0, [])), [], Unsettled, Anchor(offset, charOffset));
    var h3 := Handler(None, [Edit(charOffset, charOffset, [])], Unsettled, Anchor(offset, charOffset));
    ProcessOne(bytes, h0, e0);
    assert Process(bytes, h0, [e0]) == h0;
    ProcessSnoc(bytes, h0, [e0], e1);
    assert Process(bytes, h0, [e0] + [e1]) == h2;
    ProcessSnoc(bytes, h0, [e0] + [e1], e2);
    assert Process(bytes, h0, [e0] + [e1] + [e2]) == h3;
    ProcessSnoc(bytes, h0, [e0] + [e1] + [e2], e3);
    ProcessSnoc(bytes, h0, [e0] + [e1] + [e2] + [e3], e4);
    assert [e0, e1, e2, e3, e4] == [e0] + [e1] + [e2] + [e3] + [e4];
  }

  /** The translator cache outlives a formatting run. After the text "a"
      had an edit at byte 1, the cache holds (1, 1); formatting "éa" (bytes
      C3 A9 61) with an edit at byte 2, between "é" and "a", then reports
      code-unit offset 2, after the "a", where a fresh cache gives 1. Both
      offsets lie inside the document. */
  lemma SharedCacheMisplacesEdit()
    ensures var code: String := [0xE9, 0x61];
      var events := [OpenTag(REPLACEMENTS, 0, 0), OpenTag(REPLACEMENT, 2, 0), CloseTag(REPLACEMENT),
                     CloseTag(REPLACEMENTS), End];
      Observe(Process(Utf8Bytes(code), Initial(Anchor(1, 1)), events)) == Fulfilled([Edit(2, 2, [])]) &&
      Observe(Process(Utf8Bytes(code), Initial(START), events)) == Fulfilled([Edit(1, 1, [])])
  {
    var code: String := [0xE9, 0x61];
    var bytes := Utf8Bytes(code);
    StaleAnchorCounterexample();
    assert TranslateLength(bytes, 2, 0) == 0 by {
      assert Slice(bytes, 2, 2) == [];
    }
    OneEmptyElement(bytes, Anchor(1, 1), 2, 2);
    OneEmptyElement(bytes, START, 2, 1);
  }

  /** `getEdits` with a translator cache of its own, created for the run
      and dropped after it: the outcome depends on the document and the
      parser events only. */
  method GetEditsScoped(codeContent: String, events: seq<Event>) returns (result: Outcome)
    ensures result == Observe(Process(Utf8Bytes(codeContent), Initial(START), events))
  {
    var cache := new OffsetCache();
    result := GetEdits(cache, codeContent, events);
  }

  /** With a cache of its own, well-formed output whose offsets fall on
      character boundaries resolves to exactly the expected edits. */
  lemma ScopedCacheIsExact(code: String, rs: seq<Replacement>)
    requires OnBoundaries(code, rs)
    ensures Observe(Process(Utf8Bytes(code), Initial(START), DocumentEvents(rs))) ==
      Fulfilled(ExpectedAll(Utf8Bytes(code), rs))
  {
    StartIsAnchored(code);
    WellFormedOutputResolves(code, START, rs);
  }
}
