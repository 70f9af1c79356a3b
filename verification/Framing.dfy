/**
  How the delivered text reaches a pane: the bracketed-paste frame, the hex argv and the bulk stdin of
  backends.rs, and the one-invocation doorbell argv of rally_wake.py.
  */
module Framing {
  import opened Basics
  import opened Utf8
  import opened Marks
  import opened Delivery
  import opened Tmux

  const ESC: byte := 0x1B
  const CR: byte := 0x0D
  const CLEAR: byte := 0x15
  const PASTE_START: seq<byte> := [0x1B, 0x5B, 0x32, 0x30, 0x30, 0x7E]
  const PASTE_END: seq<byte> := [0x1B, 0x5B, 0x32, 0x30, 0x31, 0x7E]

  function Frame(text: string): seq<byte> {
    PASTE_START + Encode(text) + PASTE_END + [CR]
  }

  /** `frame_line_bytes`, which grows one buffer. */
  method FrameLineBytes(text: string) returns (out: seq<byte>)
    ensures out == Frame(text)
    ensures out == [0x1B, 0x5B, 0x32, 0x30, 0x30, 0x7E] + Encode(text) + [0x1B, 0x5B, 0x32, 0x30, 0x31, 0x7E] + [0x0D]
    ensures Clean(text) ==> Submits(out, text)
  {
    out := [];
    out := out + PASTE_START;
    out := out + Encode(text);
    out := out + PASTE_END;
    out := out + [CR];
    assert out == Frame(text);
    if Clean(text) { FrameSubmits(text); }
  }

  /** Clean text encodes to bytes with neither ESC nor CR. */
  lemma CleanBytes(text: string)
    requires Clean(text)
    ensures ESC !in Encode(text) && CR !in Encode(text)
  {
    AsciiBytes(text, ESC);
    AsciiBytes(text, CR);
  }

  /** CR is the last byte of the frame and no other; ESC opens the two paste markers and is nowhere else. */
  lemma FrameControls(text: string, i: nat)
    requires Clean(text) && i < |Frame(text)|
    ensures Frame(text)[i] == CR <==> i == |Frame(text)| - 1
    ensures Frame(text)[i] == ESC <==> i == 0 || i == |PASTE_START| + |Encode(text)|
  {
    CleanBytes(text);
    var e := Encode(text);
    if 6 <= i < 6 + |e| { assert Frame(text)[i] == e[i - 6]; }
  }

  // ---------------------------------------------------------------------------
  // A bracketed-paste reader
  // ---------------------------------------------------------------------------

  datatype Input = Key(b: byte) | Paste(content: seq<byte>)

  /** The bytes before the first paste-end marker, or all of them. */
  function UntilEnd(b: seq<byte>): (content: seq<byte>)
    ensures |content| <= |b|
  {
    if b == [] || PASTE_END <= b then [] else [b[0]] + UntilEnd(b[1..])
  }

  /** What a paste-aware program sees: single keys, and whole pastes. */
  function ReadInput(b: seq<byte>): seq<Input>
    decreases |b|
  {
    if b == [] then []
    else if PASTE_START <= b then
      var content := UntilEnd(b[|PASTE_START|..]);
      var rest := b[|PASTE_START| + |content|..];
      [Paste(content)] + ReadInput(if PASTE_END <= rest then rest[|PASTE_END|..] else [])
    else [Key(b[0])] + ReadInput(b[1..])
  }

  lemma {:induction false} UntilEndFinds(content: seq<byte>, rest: seq<byte>)
    requires ESC !in content
    ensures UntilEnd(content + (PASTE_END + rest)) == content
  {
    var b := content + (PASTE_END + rest);
    if content == [] {
      assert b == PASTE_END + rest && PASTE_END <= b;
    } else {
      assert b[0] == content[0] != ESC;
      assert !(PASTE_END <= b);
      assert b[1..] == content[1..] + (PASTE_END + rest);
      UntilEndFinds(content[1..], rest);
    }
  }

  lemma ReadPaste(content: seq<byte>, rest: seq<byte>)
    requires ESC !in content
    ensures ReadInput(PASTE_START + content + PASTE_END + rest) == [Paste(content)] + ReadInput(rest)
  {
    var b := PASTE_START + content + PASTE_END + rest;
    UntilEndFinds(content, rest);
    assert PASTE_START <= b && b[|PASTE_START|..] == content + (PASTE_END + rest);
    var after := b[|PASTE_START| + |content|..];
    assert after == PASTE_END + rest && after[|PASTE_END|..] == rest && PASTE_END <= after;
  }

  lemma ReadKey(b: byte, rest: seq<byte>)
    requires b != ESC
    ensures ReadInput([b] + rest) == [Key(b)] + ReadInput(rest)
  {
    assert ([b] + rest)[0] == b && ([b] + rest)[1..] == rest;
  }

  /** The whole write reads back as: clear the line, one paste holding exactly the text, submit. */
  lemma ReaderRecovers(text: string)
    requires Clean(text)
    ensures ReadInput([CLEAR] + Frame(text)) == [Key(CLEAR), Paste(Encode(text)), Key(CR)]
    ensures Decode(Encode(text)) == Some(text)
  {
    CleanBytes(text);
    DecodeEncode(text);
    ReadKey(CLEAR, Frame(text));
    ReadPaste(Encode(text), [CR]);
    ReadKey(CR, []);
    assert [CR] + [] == [CR];
  }

  /** One CR, at the end, and a paste-aware program reads the text as one paste and submits it. */
  ghost predicate Submits(frame: seq<byte>, text: string) {
    && (forall i :: 0 <= i < |frame| ==> (frame[i] == CR <==> i == |frame| - 1))
    && ReadInput([CLEAR] + frame) == [Key(CLEAR), Paste(Encode(text)), Key(CR)]
  }

  lemma FrameSubmits(text: string)
    requires Clean(text)
    ensures Submits(Frame(text), text)
  {
    forall i | 0 <= i < |Frame(text)|
      ensures Frame(text)[i] == CR <==> i == |Frame(text)| - 1
    {
      FrameControls(text, i);
    }
    ReaderRecovers(text);
  }

  // ---------------------------------------------------------------------------
  // The two tmux paths of an inject
  // ---------------------------------------------------------------------------

  datatype Write = HexArgv(argv: seq<string>) | BulkStdin(argv: seq<string>, stdin: seq<byte>)

  /** The buffer of one runner: a fixed prefix and a fresh UUID. */
  type Uuid = s: string | s != "" && forall k :: 0 <= k < |s| ==> s[k] in "0123456789abcdef-" witness "0"

  function BulkArgv(bin: string, target: string, buffer: string): seq<string> {
    [bin, "load-buffer", "-b", buffer, "-", ";", "paste-buffer", "-d", "-r", "-b", buffer, "-t", target]
  }

  /** `inject`: above 8192 bytes the frame goes through a buffer loaded from stdin. */
  function InjectWrite(bin: string, target: string, uuid: Uuid, payload: string): Write {
    if |Encode(payload)| > 8192 then BulkStdin(BulkArgv(bin, target, "rally-" + uuid), [CLEAR] + Frame(payload))
    else HexArgv([bin, "send-keys", "-t", target, "-H", "15"] + HexTokens(Frame(payload)))
  }

  /** What tmux types when it runs a write. */
  function TypedByWrite(w: Write): seq<Typed> {
    match w
    case HexArgv(argv) => TypedBy(argv, [])
    case BulkStdin(argv, stdin) => TypedBy(argv, stdin)
  }

  lemma HexArgvIs(bin: string, target: string, bytes: seq<byte>)
    ensures [bin, "send-keys", "-t", target, "-H", "15"] + HexTokens(bytes)
         == [bin] + (["send-keys", "-t"] + ([target] + (["-H"] + HexTokens([CLEAR] + bytes))))
  {
    assert ([CLEAR] + bytes)[1..] == bytes;
    ClearToken();
    Grouped(bin, "send-keys", "-t", target, "-H", "15", HexTokens(bytes));
  }

  lemma ClearToken()
    ensures HexToken(CLEAR) == "15"
  {
  }

  lemma Grouped(a: string, b: string, c: string, d: string, e: string, f: string, tokens: seq<string>)
    ensures [a, b, c, d, e, f] + tokens == [a] + ([b, c] + ([d] + ([e] + ([f] + tokens))))
  {
  }

  lemma HexWhole(bytes: seq<byte>)
    ensures AllWhole(["-H"] + HexTokens(bytes)) && AllWhole(HexTokens(bytes))
  {
    forall k | 0 <= k < |bytes| ensures Whole(HexTokens(bytes)[k]) {
    }
  }

  /** The hex path types the cleared frame into the pane that tmux understands the target to be. */
  lemma HexTypes(bin: string, target: string, bytes: seq<byte>)
    ensures var typed := TypedBy([bin, "send-keys", "-t", target, "-H", "15"] + HexTokens(bytes), []);
      && (!EndsCommand(target) ==> typed == [Bytes(Meant(target), [CLEAR] + bytes)])
      && (EndsCommand(target) ==> typed != [] && typed[0].Names?)
  {
    var post := ["-H"] + HexTokens([CLEAR] + bytes);
    var tail := ["send-keys", "-t"] + ([target] + post);
    HexArgvIs(bin, target, bytes);
    assert ([bin] + tail)[1..] == tail;
    HexWhole([CLEAR] + bytes);
    SplitAround(["send-keys", "-t"], target, post);
    if EndsCommand(target) {
      CutTypesNames(if |target| == 1 then [] else [target[..|target| - 1]], SplitCommands(post, []));
    } else {
      SendTypes(Meant(target), [CLEAR] + bytes);
    }
  }

  lemma SendTypes(pane: string, bytes: seq<byte>)
    requires bytes != []
    ensures Run([["send-keys", "-t"] + ([pane] + (["-H"] + HexTokens(bytes)))], [], map[]) == [Bytes(pane, bytes)]
  {
    var tokens := HexTokens(bytes);
    var c := ["send-keys", "-t"] + ([pane] + (["-H"] + tokens));
    assert c[1..] == ["-t", pane] + (["-H"] + tokens);
    TakesPane(pane, ["-H"] + tokens, NO_OPTIONS);
    TakesHex(tokens, NO_OPTIONS.(pane := pane));
    assert tokens[0] == HexToken(bytes[0]) && tokens[0][0] != '-';
    TakesRest(tokens, NO_OPTIONS.(pane := pane, hex := true));
    ReadHexTokens(bytes);
  }

  lemma CutTypesNames(pane: seq<string>, more: seq<seq<string>>)
    requires |pane| <= 1
    ensures var typed := Run([["send-keys", "-t"] + pane] + more, [], map[]); typed != [] && typed[0].Names?
  {
    var c := ["send-keys", "-t"] + pane;
    if pane == [] {
      assert c[1..] == ["-t"];
    } else {
      assert c[1..] == ["-t", pane[0]] + [];
      TakesPane(pane[0], [], NO_OPTIONS);
    }
    assert ([c] + more)[0] == c;
  }

  lemma BufferIsWhole(uuid: Uuid)
    ensures Whole("rally-" + uuid)
  {
    var buffer := "rally-" + uuid;
    assert buffer[|buffer| - 1] == uuid[|uuid| - 1];
  }

  /** The bulk path loads the frame into one buffer and pastes that buffer into the target as tmux understands it. */
  lemma BulkTypes(bin: string, target: string, buffer: string, stdin: seq<byte>)
    requires Whole(buffer)
    ensures var typed := TypedBy(BulkArgv(bin, target, buffer), stdin);
      && (!EndsCommand(target) ==> typed == [Bytes(Meant(target), stdin)])
      && (EndsCommand(target) ==>
            typed == [Bytes(if |target| == 1 then "" else target[..|target| - 1], stdin)])
  {
    var load, paste := ["load-buffer", "-b", buffer, "-"], ["paste-buffer", "-d", "-r", "-b", buffer, "-t"];
    var named :=
      if !EndsCommand(target) then [Meant(target)] else if |target| == 1 then [] else [target[..|target| - 1]];
    BulkSplits(bin, target, buffer, load, paste, named);
    PasteTypes(load, paste, buffer, named, stdin);
  }

  lemma BulkSplits(bin: string, target: string, buffer: string, load: seq<string>, paste: seq<string>,
      named: seq<string>)
    requires Whole(buffer)
    requires load == ["load-buffer", "-b", buffer, "-"] && paste == ["paste-buffer", "-d", "-r", "-b", buffer, "-t"]
    requires named ==
      if !EndsCommand(target) then [Meant(target)] else if |target| == 1 then [] else [target[..|target| - 1]]
    ensures SplitCommands(BulkArgv(bin, target, buffer)[1..], []) == [load, paste + named]
  {
    assert BulkArgv(bin, target, buffer)[1..] == load + [";"] + (paste + ([target] + []));
    SplitFirst(load, paste + ([target] + []));
    SplitAround(paste, target, []);
    assert [Meant(target)] + [] == [Meant(target)];
  }

  lemma PasteTypes(load: seq<string>, paste: seq<string>, buffer: string, named: seq<string>, stdin: seq<byte>)
    requires load == ["load-buffer", "-b", buffer, "-"] && paste == ["paste-buffer", "-d", "-r", "-b", buffer, "-t"]
    requires |named| <= 1
    ensures Run([load, paste + named], stdin, map[]) == [Bytes(if named == [] then "" else named[0], stdin)]
  {
    var o := NO_OPTIONS.(once := true, raw := true, buffer := buffer);
    LoadReads(buffer);
    assert (paste + named)[1..] == ["-d", "-r"] + (["-b", buffer] + (["-t"] + named));
    TakesRaw(["-b", buffer] + (["-t"] + named), NO_OPTIONS);
    TakesBuffer(buffer, ["-t"] + named, NO_OPTIONS.(once := true, raw := true));
    if named == [] {
      assert ReadOptions(["-t"] + named, o).pane == "" && ReadOptions(["-t"] + named, o).buffer == buffer;
    } else {
      assert ["-t"] + named == ["-t", named[0]] + [];
      TakesPane(named[0], [], o);
    }
    assert [load, paste + named][1..] == [paste + named];
    PasteRuns(paste + named, stdin, buffer, if named == [] then "" else named[0]);
  }

  lemma LoadReads(buffer: string)
    ensures ReadOptions(["-b", buffer, "-"], NO_OPTIONS) == NO_OPTIONS.(buffer := buffer, rest := ["-"])
  {
    assert ["-b", buffer, "-"] == ["-b", buffer] + ["-"];
    TakesBuffer(buffer, ["-"], NO_OPTIONS);
    TakesRest(["-"], NO_OPTIONS.(buffer := buffer));
  }

  lemma PasteRuns(c: seq<string>, stdin: seq<byte>, buffer: string, pane: string)
    requires c != [] && c[0] == "paste-buffer"
    requires var o := ReadOptions(c[1..], NO_OPTIONS); o.buffer == buffer && o.pane == pane && o.raw
    ensures Run([c], stdin, map[][buffer := stdin]) == [Bytes(pane, stdin)]
  {
  }

  /**
    Either path types exactly one thing, the cleared frame, and types it into `target` if and only if no
    semicolon ends that name.
    */
  lemma InjectTypes(bin: string, target: string, uuid: Uuid, payload: string)
    ensures TypedByWrite(InjectWrite(bin, target, uuid, payload)) == [Bytes(target, [CLEAR] + Frame(payload))]
       <==> Whole(target)
  {
    BufferIsWhole(uuid);
    HexTypes(bin, target, Frame(payload));
    BulkTypes(bin, target, "rally-" + uuid, [CLEAR] + Frame(payload));
  }

  /**
    For every sender, message and text, either path types one cleared line, one paste that decodes to the
    delivered text, and one submit into the target, and nothing anywhere else, unless a semicolon ends its name.
    */
  lemma InjectDelivers(bin: string, target: string, uuid: Uuid, sender: string, m: Message, text: string)
    ensures var payload := Deliverable(sender, m, text);
      && (TypedByWrite(InjectWrite(bin, target, uuid, payload)) == [Bytes(target, [CLEAR] + Frame(payload))]
          <==> Whole(target))
      && ReadInput([CLEAR] + Frame(payload)) == [Key(CLEAR), Paste(Encode(payload)), Key(CR)]
      && Decode(Encode(payload)) == Some(payload)
  {
    var payload := Deliverable(sender, m, text);
    DeliveredMarks(sender, m, text);
    ReaderRecovers(payload);
    InjectTypes(bin, target, uuid, payload);
  }

  /** `inject`, after the probe: the delivered text goes out by the path its length asks for. */
  method Inject(bin: string, target: string, uuid: Uuid, sender: string, m: Message, text: string)
      returns (w: Write)
    ensures var payload := Deliverable(sender, m, text); var frame := [CLEAR] + Frame(payload);
      && (TypedByWrite(w) == [Bytes(target, frame)] <==> Whole(target))
      && ReadInput(frame) == [Key(CLEAR), Paste(Encode(payload)), Key(CR)]
      && (w.BulkStdin? <==> |Encode(payload)| > 8192)
      && (w.BulkStdin? ==> w.stdin == frame)
      && (w.HexArgv? ==> |w.argv| == 5 + |frame|)
  {
    var payload := Deliverable(sender, m, text);
    var frame := FrameLineBytes(payload);
    if |Encode(payload)| > 8192 {
      w := BulkStdin(BulkArgv(bin, target, "rally-" + uuid), [CLEAR] + frame);
    } else {
      w := HexArgv([bin, "send-keys", "-t", target, "-H", "15"] + HexTokens(frame));
    }
    InjectTypes(bin, target, uuid, payload);
    DeliveredMarks(sender, m, text);
    ReaderRecovers(payload);
  }

  // ---------------------------------------------------------------------------
  // The doorbell argv
  // ---------------------------------------------------------------------------

  predicate IsNameHead(c: char) {
    IsAsciiLetter(c) || IsDigit(c) || c == '_'
  }

  predicate IsName(s: string) {
    s != "" && IsNameHead(s[0]) && forall k :: 0 <= k < |s| ==> IsNameHead(s[k]) || s[k] == '.' || s[k] == '-'
  }

  predicate IsSigil(c: char) {
    c == '%' || c == '@' || c == '$'
  }

  /** `.` and a pane number or `%` id. */
  predicate IsPaneSuffix(s: string) {
    || s == ""
    || (s[0] == '.' && (AllDigits(s[1..]) || (|s| > 1 && s[1] == '%' && AllDigits(s[2..]))))
  }

  /** The target grammar: an id, a bare name, or `[session]:[window][.pane]`. */
  predicate MatchesTarget(s: string) {
    || (s != "" && IsSigil(s[0]) && AllDigits(s[1..]))
    || IsName(s)
    || exists i, j | 0 <= i < j <= |s| :: IsColonForm(s, i, j)
  }

  /** `:` stands at `i` and the window name ends at `j`; both names are optional. */
  predicate IsColonForm(s: string, i: int, j: int)
    requires 0 <= i < j <= |s|
  {
    && s[i] == ':'
    && (i == 0 || IsName(s[..i])) && (j == i + 1 || IsName(s[i + 1..j])) && IsPaneSuffix(s[j..])
  }

  function ValidateTarget(target: string): Result<string, string> {
    if target == "" then Err("tmux target is required")
    else if |target| > 128 || !MatchesTarget(target) then Err("refusing tmux target")
    else Ok(target)
  }

  predicate IsTargetChar(c: char) {
    IsNameHead(c) || c == '.' || c == '-' || c == ':' || IsSigil(c)
  }

  predicate AllTarget(s: string) {
    forall k :: 0 <= k < |s| ==> IsTargetChar(s[k])
  }

  lemma PaneSuffixChars(s: string)
    requires IsPaneSuffix(s)
    ensures AllTarget(s)
  {
    if s != "" {
      assert s == [s[0]] + s[1..];
      if !AllDigits(s[1..]) { assert s == [s[0], s[1]] + s[2..]; }
    }
  }

  /** Only letters, digits and `_.-:%@$` pass, so a target never ends a tmux command. */
  lemma TargetChars(s: string)
    requires MatchesTarget(s)
    ensures AllTarget(s)
  {
    if s != "" && IsSigil(s[0]) && AllDigits(s[1..]) {
      assert s == [s[0]] + s[1..];
    } else if !IsName(s) {
      var i, j :| 0 <= i < j <= |s| && IsColonForm(s, i, j);
      ColonFormChars(s, i, j);
    }
  }

  lemma ColonFormChars(s: string, i: int, j: int)
    requires 0 <= i < j <= |s| && IsColonForm(s, i, j)
    ensures AllTarget(s)
  {
    PaneSuffixChars(s[j..]);
    PiecesChars(s[..i], s[i + 1..j], s[j..]);
    assert s == s[..i] + ":" + s[i + 1..j] + s[j..];
  }

  lemma PiecesChars(session: string, window: string, pane: string)
    requires (session == "" || IsName(session)) && (window == "" || IsName(window)) && AllTarget(pane)
    ensures AllTarget(session + ":" + window + pane)
  {
  }

  /** Clear, payload and submit as one `;`-separated command sequence. */
  function WakeSequence(target: string, tokens: seq<string>): seq<string> {
    ["send-keys", "-t", target, "C-u", ";", "send-keys", "-t", target, "-H", "--"]
    + tokens + [";", "send-keys", "-t", target, "C-m"]
  }

  /** `tmux_wake_commands`: refused, or the argv of one tmux invocation. */
  function WakeCommands(target: string, text: string, sender: string): Result<seq<string>, string> {
    match ValidateTarget(target)
    case Err(e) => Err(e)
    case Ok(t) => Ok(["tmux"] + WakeSequence(t, HexTokens(Encode(DeliverableWake(sender, text)))))
  }

  lemma TargetIsWhole(target: string)
    requires MatchesTarget(target)
    ensures Whole(target)
  {
    TargetChars(target);
  }

  /**
    A valid target yields an argv that tmux splits into exactly three commands: clear, the payload as
    hex, submit.  The payload's tokens read back to the encoding of the labelled, scrubbed text.
    */
  lemma WakeSplits(target: string, text: string, sender: string)
    requires WakeCommands(target, text, sender).Ok?
    ensures var argv := WakeCommands(target, text, sender).value;
      var body := DeliverableWake(sender, text);
      var tokens := HexTokens(Encode(body));
      && argv[0] == "tmux"
      && SplitCommands(argv[1..], []) == [
           ["send-keys", "-t", target, "C-u"],
           ["send-keys", "-t", target, "-H", "--"] + tokens,
           ["send-keys", "-t", target, "C-m"]]
      && ReadHex(tokens) == Some(Encode(body)) && Decode(Encode(body)) == Some(body)
  {
    var body := DeliverableWake(sender, text);
    ReadHexTokens(Encode(body));
    DecodeEncode(body);
    ThreeCommands(target, HexTokens(Encode(body)), Encode(body));
    TailOf("tmux", WakeSequence(target, HexTokens(Encode(body))));
  }

  lemma TailOf(head: string, rest: seq<string>)
    ensures ([head] + rest)[1..] == rest
  {
  }

  lemma ThreeCommands(target: string, tokens: seq<string>, bytes: seq<byte>)
    requires MatchesTarget(target) && tokens == HexTokens(bytes)
    ensures SplitCommands(WakeSequence(target, tokens), [])
      == [["send-keys", "-t", target, "C-u"], ["send-keys", "-t", target, "-H", "--"] + tokens,
        ["send-keys", "-t", target, "C-m"]]
  {
    var a := ["send-keys", "-t", target, "C-u"];
    var b := ["send-keys", "-t", target, "-H", "--"] + tokens;
    var c := ["send-keys", "-t", target, "C-m"];
    TargetIsWhole(target);
    HexWhole(bytes);
    assert WakeSequence(target, tokens) == a + [";"] + b + [";"] + c;
    ThreeRuns(a, b, c);
  }

  lemma ThreeRuns(a: seq<string>, b: seq<string>, c: seq<string>)
    requires AllWhole(a) && AllWhole(b) && AllWhole(c) && c != []
    ensures SplitCommands(a + [";"] + b + [";"] + c, []) == [a, b, c]
  {
    SplitLast(c);
    SplitFirst(b, c);
    SplitFirst(a, b + [";"] + c);
    Regrouped(a, b, c);
  }

  lemma Regrouped(a: seq<string>, b: seq<string>, c: seq<string>)
    ensures a + [";"] + b + [";"] + c == a + [";"] + (b + [";"] + c)
  {
  }

  /**
    An accepted doorbell types three things into the target, in this order: the key that clears the line, the
    bytes of the delivered text, the key that submits.
    */
  lemma WakeTypes(target: string, text: string, sender: string)
    requires WakeCommands(target, text, sender).Ok?
    ensures TypedBy(WakeCommands(target, text, sender).value, [])
         == [Names(target, ["C-u"]), Bytes(target, Encode(DeliverableWake(sender, text))), Names(target, ["C-m"])]
  {
    var bytes := Encode(DeliverableWake(sender, text));
    var middle := ["send-keys", "-t", target, "-H", "--"] + HexTokens(bytes);
    WakeSplits(target, text, sender);
    var last: seq<seq<string>> := [["send-keys", "-t", target, "C-m"]];
    NameRuns(target, "C-m", []);
    assert last + [] == last;
    MiddleRuns(target, bytes, last);
    NameRuns(target, "C-u", [middle] + last);
    assert [["send-keys", "-t", target, "C-u"]] + ([middle] + last)
        == [["send-keys", "-t", target, "C-u"], middle, ["send-keys", "-t", target, "C-m"]];
  }

  lemma NameRuns(target: string, key: string, more: seq<seq<string>>)
    requires key in {"C-u", "C-m"}
    ensures Run([["send-keys", "-t", target, key]] + more, [], map[]) == [Names(target, [key])] + Run(more, [], map[])
  {
    var c := ["send-keys", "-t", target, key];
    assert c[1..] == ["-t", target] + [key] && ([c] + more)[1..] == more;
    TakesPane(target, [key], NO_OPTIONS);
    TakesRest([key], NO_OPTIONS.(pane := target));
  }

  lemma MiddleRuns(target: string, bytes: seq<byte>, more: seq<seq<string>>)
    ensures Run([["send-keys", "-t", target, "-H", "--"] + HexTokens(bytes)] + more, [], map[])
         == [Bytes(target, bytes)] + Run(more, [], map[])
  {
    var c := ["send-keys", "-t", target, "-H", "--"] + HexTokens(bytes);
    assert ([c] + more)[1..] == more && ([c] + more)[0] == c;
    MiddleReads(target, HexTokens(bytes));
    ReadHexTokens(bytes);
  }

  lemma MiddleReads(target: string, tokens: seq<string>)
    ensures ReadOptions((["send-keys", "-t", target, "-H", "--"] + tokens)[1..], NO_OPTIONS)
         == NO_OPTIONS.(pane := target, hex := true, rest := tokens)
  {
    var tail := ["--"] + tokens;
    assert (["send-keys", "-t", target, "-H", "--"] + tokens)[1..] == ["-t", target] + (["-H"] + tail);
    TakesPane(target, ["-H"] + tail, NO_OPTIONS);
    TakesHex(tail, NO_OPTIONS.(pane := target));
    assert tail[1..] == tokens;
  }

  /** Ids, bare names and `session:window.pane` are accepted up to 128 characters; longer targets and none are not. */
  lemma WakeAccepts(sigil: string, id: string, name: string, window: string, text: string, sender: string)
    requires sigil in {"%", "@", "$"} && AllDigits(id) && IsName(name) && IsName(window)
    ensures |id| <= 127 <==> WakeCommands(sigil + id, text, sender).Ok?
    ensures |name| <= 128 <==> WakeCommands(name, text, sender).Ok?
    ensures |name| + |window| + |id| <= 126 <==> WakeCommands(name + ":" + window + "." + id, text, sender).Ok?
    ensures WakeCommands("", text, sender).Err?
  {
    assert (sigil + id)[1..] == id && IsSigil((sigil + id)[0]);
    WindowMatches(name, window, "." + id);
    assert ("." + id)[1..] == id;
    assert name + ":" + window + "." + id == name + ":" + window + ("." + id);
  }

  lemma WindowMatches(name: string, window: string, pane: string)
    requires IsName(name) && IsName(window) && IsPaneSuffix(pane)
    ensures MatchesTarget(name + ":" + window + pane)
  {
    var full, i := name + ":" + window + pane, |name|;
    var j := i + 1 + |window|;
    SliceOf(name, ":", window, pane);
    assert IsColonForm(full, i, j);
  }

  lemma SliceOf(a: string, b: string, c: string, d: string)
    requires |b| == 1
    ensures var s, i := a + b + c + d, |a|; var j := i + 1 + |c|;
      s[..i] == a && s[i] == b[0] && s[i + 1..j] == c && s[j..] == d
  {
  }

  lemma NamesAre(s: string)
    ensures IsName(s) <==>
      && s != "" && s[0] !in {'.', '-'}
      && forall k :: 0 <= k < |s| ==>
        'A' <= s[k] <= 'Z' || 'a' <= s[k] <= 'z' || '0' <= s[k] <= '9' || s[k] in {'_', '.', '-'}
  {
  }

  /** A target with a character outside the grammar is refused, whatever the text. */
  lemma WakeRefuses(target: string, text: string, sender: string, k: nat)
    requires k < |target| && !IsTargetChar(target[k])
    ensures WakeCommands(target, text, sender).Err?
  {
    if MatchesTarget(target) { TargetChars(target); }
  }
}
