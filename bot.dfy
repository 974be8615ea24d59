/** The Telegram bot service (server/src/services/bot.ts): cutting long texts into
    message-sized chunks, encoding Bot API calls as form bodies, sending a message
    chunk by chunk until the first failure, and dispatching incoming updates (the
    /getchatid and /start commands and the agreement button). The Bot API itself is a
    parameter: `reply` says how it answers each call. */
module Bot {
  import opened Text
  import Js

  /** Telegram's limit on the length of one message. */
  const MaxLen: nat := 4096

  // ===========================================================================
  // splitText

  /** The pieces `splitText` cuts `text` into: consecutive slices of `size` characters,
      the last possibly shorter, and one empty piece for the empty text. */
  function Chunks(text: string, size: nat): (r: seq<string>)
    requires size > 0
    ensures |r| >= 1
    decreases |text|
  {
    if |text| <= size then [text]
    else [text[..size]] + Chunks(text[size..], size)
  }

  /** No chunk is longer than `size`, all but the last are exactly `size` long, and a
      non-empty text gives no empty chunk. */
  lemma {:induction false} ChunksSizes(text: string, size: nat)
    requires size > 0
    ensures var r := Chunks(text, size);
      && (forall k | 0 <= k < |r| :: |r[k]| <= size)
      && (forall k | 0 <= k < |r| - 1 :: |r[k]| == size)
      && (text != [] ==> forall k | 0 <= k < |r| :: r[k] != [])
    decreases |text|
  {
    if |text| > size {
      ChunksSizes(text[size..], size);
      var r := Chunks(text, size);
      assert forall k | 1 <= k < |r| :: r[k] == Chunks(text[size..], size)[k - 1];
    }
  }

  /** Gluing the chunks back together gives the text. */
  lemma {:induction false} ChunksConcat(text: string, size: nat)
    requires size > 0
    ensures Concat(Chunks(text, size)) == text
    decreases |text|
  {
    if |text| > size {
      ChunksConcat(text[size..], size);
      var r := Chunks(text, size);
      assert r[1..] == Chunks(text[size..], size);
      assert text[..size] + text[size..] == text;
    }
  }

  /** A non-empty text gives the fewest chunks of `size` that cover it. */
  lemma {:induction false} ChunksCount(text: string, size: nat)
    requires size > 0 && text != []
    ensures (|Chunks(text, size)| - 1) * size < |text| <= |Chunks(text, size)| * size
    decreases |text|
  {
    if |text| > size {
      ChunksCount(text[size..], size);
      var n := |Chunks(text[size..], size)|;
      assert |Chunks(text, size)| == n + 1;
      assert (n + 1) * size == n * size + size;
    }
  }

  /** From position `i` on: the slice at `i`, then the chunks after it. */
  lemma ChunksStep(text: string, i: nat, size: nat)
    requires size > 0 && i < |text|
    ensures i + size < |text| ==>
      Chunks(text[i..], size) == [text[i..i + size]] + Chunks(text[i + size..], size)
    ensures i + size >= |text| ==> Chunks(text[i..], size) == [text[i..]]
  {
    if i + size < |text| {
      assert text[i..][..size] == text[i..i + size];
      assert text[i..][size..] == text[i + size..];
    }
  }

  /** `splitText(text, size)`: the loop that slices `size` characters at a time. */
  method SplitText(text: string, size: nat) returns (parts: seq<string>)
    requires size > 0
    ensures parts == Chunks(text, size)
  {
    if text == "" {
      return [""];
    }
    parts := [];
    var i := 0;
    while i < |text|
      invariant 0 <= i
      invariant i < |text| ==> parts + Chunks(text[i..], size) == Chunks(text, size)
      invariant i >= |text| ==> parts == Chunks(text, size)
      decreases |text| - i
    {
      var end := if i + size < |text| then i + size else |text|;
      var chunk := text[i..end];
      ChunksStep(text, i, size);
      if i + size < |text| {
        assert parts + [chunk] + Chunks(text[i + size..], size) == parts + Chunks(text[i..], size);
      } else {
        assert chunk == text[i..];
      }
      parts := parts + [chunk];
      i := i + size;
    }
  }

  // ===========================================================================
  // tgCall

  /** One entry of the parameter object handed to `tgCall`. */
  datatype Param = Param(key: string, value: Js.Value)

  /** A Bot API request: the method name and the url-encoded form body, in order. */
  datatype ApiCall = ApiCall(name: string, form: seq<(string, string)>)

  /** How the Bot API answers: whether the HTTP status was a success, its status text,
      and the `ok` and `description` of the JSON body (a body that is not JSON reads as
      `ok` false with no description). */
  datatype TgReply = TgReply(httpOk: bool, statusText: string, ok: bool, description: string)

  /** The form entry one parameter contributes: none for `undefined` and `null`. */
  function Entry(p: Param): seq<(string, string)> {
    if Js.Nullish(p.value) then [] else [(p.key, Js.ToString(p.value))]
  }

  /** The form body of `tgCall`. */
  function FormEntries(params: seq<Param>): (r: seq<(string, string)>)
    ensures |r| <= |params|
  {
    if params == [] then [] else Entry(params[0]) + FormEntries(params[1..])
  }

  /** A key and value are in the form body exactly when some parameter with that key has
      a value that is neither `undefined` nor `null` and prints as that value. */
  lemma {:induction false} FormEntriesMembership(params: seq<Param>, key: string, v: string)
    ensures (key, v) in FormEntries(params) <==>
      exists i | 0 <= i < |params| ::
        params[i].key == key && !Js.Nullish(params[i].value) && Js.ToString(params[i].value) == v
  {
    if params != [] {
      var tail := params[1..];
      FormEntriesMembership(tail, key, v);
      assert forall i | 0 <= i < |tail| :: tail[i] == params[i + 1];
      if exists i | 0 <= i < |params| ::
           params[i].key == key && !Js.Nullish(params[i].value) && Js.ToString(params[i].value) == v {
        var i :| 0 <= i < |params| &&
          params[i].key == key && !Js.Nullish(params[i].value) && Js.ToString(params[i].value) == v;
        if i > 0 { assert tail[i - 1] == params[i]; }
      }
    }
  }

  /** All parameters kept, in order: the body of a list with no nullish values. */
  lemma {:induction false} FormEntriesKeepAll(params: seq<Param>)
    requires forall i | 0 <= i < |params| :: !Js.Nullish(params[i].value)
    ensures |FormEntries(params)| == |params|
    ensures forall i | 0 <= i < |params| ::
      FormEntries(params)[i] == (params[i].key, Js.ToString(params[i].value))
  {
    if params != [] {
      FormEntriesKeepAll(params[1..]);
    }
  }

  /** The form body of a concatenation is the concatenation of the form bodies. */
  lemma {:induction false} FormEntriesAppend(a: seq<Param>, b: seq<Param>)
    ensures FormEntries(a + b) == FormEntries(a) + FormEntries(b)
    decreases |a|
  {
    if a == [] {
      assert a + b == b;
    } else {
      var t := a[1..];
      assert (a + b)[1..] == t + b;
      FormEntriesAppend(t, b);
      assert FormEntries(a + b) == Entry(a[0]) + (FormEntries(t) + FormEntries(b));
    }
  }

  /** The `forEach` of `tgCall` that appends the non-nullish parameters to the body. */
  method FormBody(params: seq<Param>) returns (body: seq<(string, string)>)
    ensures body == FormEntries(params)
  {
    body := [];
    for i := 0 to |params|
      invariant body == FormEntries(params[..i])
    {
      assert params[..i + 1] == params[..i] + [params[i]];
      FormEntriesAppend(params[..i], [params[i]]);
      assert [params[i]][1..] == [];
      var p := params[i];
      if !Js.Nullish(p.value) {
        body := body + [(p.key, Js.ToString(p.value))];
      }
    }
    assert params[..|params|] == params;
  }

  predicate Succeeded(r: TgReply) {
    r.httpOk && r.ok
  }

  /** The message of the error `tgCall` throws: the description, or else the status text. */
  function CallError(name: string, r: TgReply): string {
    "Telegram " + name + " failed: " + (if r.description != "" then r.description else r.statusText)
  }

  /** The errors the service throws. `Message` is the text the handler reports for each. */
  datatype BotError =
    | ChatIdRequired
    | TextRequired
    | CallFailed(name: string, reply: TgReply)
    | NoMessage
  {
    function Message(): string {
      match this
      case ChatIdRequired => "chatId required"
      case TextRequired => "text required"
      case CallFailed(name, r) => CallError(name, r)
      case NoMessage => NoMessageError
    }
  }

  /** `tgCall(name, params)`: issues the request and reports the error it throws, if any. */
  method TgCall(name: string, params: seq<Param>, reply: ApiCall -> TgReply)
    returns (call: ApiCall, err: Option<BotError>)
    ensures call == ApiCall(name, FormEntries(params))
    ensures err.None? <==> Succeeded(reply(call))
    ensures err.Some? ==> err.value == CallFailed(name, reply(call))
  {
    var form := FormBody(params);
    call := ApiCall(name, form);
    var r := reply(call);
    if Succeeded(r) {
      err := None;
    } else {
      err := Some(CallFailed(name, r));
    }
  }

  // ===========================================================================
  // sendTelegramMessage

  datatype ButtonAction = CallbackData(data: string) | WebApp(url: string)
  datatype Button = Button(text: string, action: ButtonAction)
  datatype Markup = InlineKeyboard(rows: seq<seq<Button>>)

  /** A JSON string literal, as `JSON.stringify` writes it. */
  function JsonString(s: string): string {
    "\"" + Concat(seq(|s|, k requires 0 <= k < |s| => JsonChar(s[k]))) + "\""
  }

  function HexDigit(n: nat): char
    requires n < 16
  {
    if n < 10 then ('0' as int + n) as char else ('a' as int + n - 10) as char
  }

  function JsonChar(c: char): string {
    if c == '"' then "\\\""
    else if c == '\\' then "\\\\"
    else if c == '\n' then "\\n"
    else if c == '\r' then "\\r"
    else if c == '\t' then "\\t"
    else if c == '\U{0008}' then "\\b"
    else if c == '\U{000C}' then "\\f"
    else if (c as int) < 0x20 then "\\u00" + [HexDigit(c as int / 16), HexDigit(c as int % 16)]
    else [c]
  }

  function ButtonJson(b: Button): string {
    "{\"text\":" + JsonString(b.text) + ","
    + (match b.action
       case CallbackData(d) => "\"callback_data\":" + JsonString(d)
       case WebApp(u) => "\"web_app\":{\"url\":" + JsonString(u) + "}")
    + "}"
  }

  function RowJson(row: seq<Button>): string {
    "[" + Join(",", seq(|row|, k requires 0 <= k < |row| => ButtonJson(row[k]))) + "]"
  }

  /** `JSON.stringify(replyMarkup)`. */
  function MarkupJson(m: Markup): string {
    "{\"inline_keyboard\":["
    + Join(",", seq(|m.rows|, k requires 0 <= k < |m.rows| => RowJson(m.rows[k])))
    + "]}"
  }

  /** The argument object of `sendTelegramMessage`. */
  datatype SendRequest = SendRequest(chatId: Js.Value, text: string, parseMode: Js.Value, threadId: Js.Value,
                                     replyMarkup: Option<Markup>)

  /** The parameters every chunk of one message shares besides the chat: the parse mode,
      the thread and the serialised keyboard. */
  datatype Extras = Extras(parseMode: Js.Value, threadId: Js.Value, replyMarkup: Js.Value)

  /** `replyMarkup ? JSON.stringify(replyMarkup) : undefined`. */
  function ExtrasOf(req: SendRequest): Extras {
    Extras(req.parseMode, req.threadId,
           match req.replyMarkup case Some(m) => Js.Str(MarkupJson(m)) case None => Js.Undefined)
  }

  /** The parameters of one `sendMessage` call. */
  function MessageParams(chat: Js.Value, chunk: string, x: Extras): seq<Param> {
    [ Param("chat_id", chat),
      Param("text", Js.Str(chunk)),
      Param("parse_mode", x.parseMode),
      Param("disable_web_page_preview", Js.Bool(true)),
      Param("message_thread_id", x.threadId),
      Param("reply_markup", x.replyMarkup) ]
  }

  function MessageCall(chat: Js.Value, chunk: string, x: Extras): ApiCall {
    ApiCall("sendMessage", FormEntries(MessageParams(chat, chunk, x)))
  }

  /** One `sendMessage` call per chunk, in order. */
  function CallsFor(chat: Js.Value, chunks: seq<string>, x: Extras): (r: seq<ApiCall>)
    ensures |r| == |chunks|
  {
    seq(|chunks|, k requires 0 <= k < |chunks| => MessageCall(chat, chunks[k], x))
  }

  /** The calls that send `text`: one per chunk of at most 4096 characters. */
  function PlannedCalls(chat: Js.Value, text: string, x: Extras): seq<ApiCall> {
    CallsFor(chat, Chunks(text, MaxLen), x)
  }

  /** The index of the first call the Bot API refuses, if any. */
  function FirstFailure(calls: seq<ApiCall>, reply: ApiCall -> TgReply): Option<nat> {
    if calls == [] then None
    else if !Succeeded(reply(calls[0])) then Some(0)
    else
      match FirstFailure(calls[1..], reply)
      case None => None
      case Some(j) => Some(j + 1)
  }

  /** `FirstFailure` finds a refused call all of whose predecessors were accepted, and
      finds none only when every call is accepted. */
  lemma {:induction false} FirstFailureIsFirst(calls: seq<ApiCall>, reply: ApiCall -> TgReply)
    ensures var r := FirstFailure(calls, reply);
      && (r.Some? ==> r.value < |calls| && !Succeeded(reply(calls[r.value])))
      && (r.Some? ==> forall j | 0 <= j < r.value :: Succeeded(reply(calls[j])))
      && (r.None? ==> forall j | 0 <= j < |calls| :: Succeeded(reply(calls[j])))
  {
    if calls != [] && Succeeded(reply(calls[0])) {
      FirstFailureIsFirst(calls[1..], reply);
      forall j | 1 <= j < |calls| ensures calls[j] == calls[1..][j - 1] { }
    }
  }

  /** The first refusal is where it is: after a run of accepted calls. */
  lemma FirstFailureAt(calls: seq<ApiCall>, reply: ApiCall -> TgReply, i: nat)
    requires i < |calls| && !Succeeded(reply(calls[i]))
    requires forall j | 0 <= j < i :: Succeeded(reply(calls[j]))
    ensures FirstFailure(calls, reply) == Some(i)
  {
    FirstFailureIsFirst(calls, reply);
  }

  lemma FirstFailureNone(calls: seq<ApiCall>, reply: ApiCall -> TgReply)
    requires forall j | 0 <= j < |calls| :: Succeeded(reply(calls[j]))
    ensures FirstFailure(calls, reply) == None
  {
    FirstFailureIsFirst(calls, reply);
  }

  /** The calls a sender issued and what it returned: the number sent or an error. */
  datatype Delivery = Delivery(issued: seq<ApiCall>, result: Result<nat, BotError>)

  /** Issuing `planned` in order, stopping after the first refused call. */
  function Deliver(planned: seq<ApiCall>, reply: ApiCall -> TgReply): Delivery {
    match FirstFailure(planned, reply)
    case None => Delivery(planned, Success(|planned|))
    case Some(j) =>
      FirstFailureIsFirst(planned, reply);
      Delivery(planned[..j + 1], Failure(CallFailed("sendMessage", reply(planned[j]))))
  }

  /** A delivery issues a prefix of the planned calls, all of them on success. */
  lemma DeliverIssuesPrefix(planned: seq<ApiCall>, reply: ApiCall -> TgReply)
    ensures var d := Deliver(planned, reply);
      && |d.issued| <= |planned| && d.issued == planned[..|d.issued|]
      && (d.result.Success? ==> d.issued == planned)
  {
    FirstFailureIsFirst(planned, reply);
  }

  /** `sendTelegramMessage` as a value: the chat is `chatId || DEFAULT_CHAT_ID`; a falsy
      chat or an empty text is refused before any call; otherwise one call per chunk is
      issued until the first refusal. */
  function SendMessage(req: SendRequest, defaultChatId: Js.Value, reply: ApiCall -> TgReply): Delivery {
    var chat := Js.Or(req.chatId, defaultChatId);
    if !Js.Truthy(chat) then Delivery([], Failure(ChatIdRequired))
    else if req.text == "" then Delivery([], Failure(TextRequired))
    else Deliver(PlannedCalls(chat, req.text, ExtrasOf(req)), reply)
  }

  /** The loop of `sendTelegramMessage`: one `sendMessage` call per chunk, in order,
      ending at the first call the Bot API refuses. */
  method SendChunks(chat: Js.Value, chunks: seq<string>, x: Extras, reply: ApiCall -> TgReply)
    returns (d: Delivery)
    ensures d == Deliver(CallsFor(chat, chunks, x), reply)
  {
    ghost var planned := CallsFor(chat, chunks, x);
    var issued: seq<ApiCall> := [];
    var i := 0;
    while i < |chunks|
      invariant 0 <= i <= |chunks|
      invariant issued == planned[..i]
      invariant forall j | 0 <= j < i :: Succeeded(reply(planned[j]))
    {
      var call, err := TgCall("sendMessage", MessageParams(chat, chunks[i], x), reply);
      assert planned[..i + 1] == issued + [call];
      issued := issued + [call];
      if err.Some? {
        FirstFailureAt(planned, reply, i);
        return Delivery(issued, Failure(err.value));
      }
      i := i + 1;
    }
    assert planned[..i] == planned;
    FirstFailureNone(planned, reply);
    return Delivery(issued, Success(|chunks|));
  }

  /** Splitting a text and sending its chunks issues the planned calls. */
  method SendText(chat: Js.Value, text: string, x: Extras, reply: ApiCall -> TgReply)
    returns (d: Delivery)
    ensures d == Deliver(PlannedCalls(chat, text, x), reply)
  {
    var chunks := SplitText(text, MaxLen);
    d := SendChunks(chat, chunks, x, reply);
  }

  /** `sendTelegramMessage`: resolve the chat, refuse a missing chat or text, split the
      text and send the chunks. */
  method SendTelegramMessage(req: SendRequest, defaultChatId: Js.Value, reply: ApiCall -> TgReply)
    returns (d: Delivery)
    ensures d == SendMessage(req, defaultChatId, reply)
  {
    var chat := Js.Or(req.chatId, defaultChatId);
    if !Js.Truthy(chat) {
      return Delivery([], Failure(ChatIdRequired));
    }
    if req.text == "" {
      return Delivery([], Failure(TextRequired));
    }
    d := SendText(chat, req.text, ExtrasOf(req), reply);
  }

  /** The value of the first entry of a form with the given key. */
  function Field(form: seq<(string, string)>, key: string): Option<string> {
    if form == [] then None
    else if form[0].0 == key then Some(form[0].1)
    else Field(form[1..], key)
  }

  /** The first parameter's entry, then the rest of the body. */
  lemma FormEntriesCons(p: Param, ps: seq<Param>)
    ensures FormEntries([p] + ps) == Entry(p) + FormEntries(ps)
  {
    assert ([p] + ps)[1..] == ps;
  }

  /** Looking keys up in a six-entry parameter list whose first, second and fourth
      values are present. */
  lemma FormOfSix(a: Param, b: Param, c: Param, d: Param, e: Param, f: Param)
    requires !Js.Nullish(a.value) && !Js.Nullish(b.value) && !Js.Nullish(d.value)
    requires a.key != b.key && d.key != a.key && d.key != b.key && d.key != c.key
    ensures var form := FormEntries([a, b, c, d, e, f]);
      && Field(form, a.key) == Some(Js.ToString(a.value))
      && Field(form, b.key) == Some(Js.ToString(b.value))
      && Field(form, d.key) == Some(Js.ToString(d.value))
  {
    var ea := (a.key, Js.ToString(a.value));
    var eb := (b.key, Js.ToString(b.value));
    var ed := (d.key, Js.ToString(d.value));
    var s4 := [d] + [e, f];
    var s3 := [c] + s4;
    var s2 := [b] + s3;
    assert [a, b, c, d, e, f] == [a] + s2;
    FormEntriesCons(a, s2);
    FormEntriesCons(b, s3);
    FormEntriesCons(c, s4);
    FormEntriesCons(d, [e, f]);
    var tail := [ed] + FormEntries([e, f]);
    FieldCons(ea, [eb] + (Entry(c) + tail), a.key);
    FieldCons(ea, [eb] + (Entry(c) + tail), b.key);
    FieldCons(eb, Entry(c) + tail, b.key);
    FieldCons(ea, [eb] + (Entry(c) + tail), d.key);
    FieldCons(eb, Entry(c) + tail, d.key);
    FieldSkip(Entry(c), tail, d.key);
    FieldCons(ed, FormEntries([e, f]), d.key);
  }

  lemma FieldCons(e: (string, string), rest: seq<(string, string)>, key: string)
    ensures Field([e] + rest, key) == if e.0 == key then Some(e.1) else Field(rest, key)
  {
    assert ([e] + rest)[1..] == rest;
  }

  /** Every `sendMessage` call goes to the resolved chat, carries its chunk as the text
      and turns link previews off. */
  lemma MessageCallFields(chat: Js.Value, chunk: string, x: Extras)
    requires Js.Truthy(chat)
    ensures var form := MessageCall(chat, chunk, x).form;
      && Field(form, "chat_id") == Some(Js.ToString(chat))
      && Field(form, "text") == Some(chunk)
      && Field(form, "disable_web_page_preview") == Some("true")
  {
    var ps := MessageParams(chat, chunk, x);
    FormOfSix(ps[0], ps[1], ps[2], ps[3], ps[4], ps[5]);
    assert ps == [ps[0], ps[1], ps[2], ps[3], ps[4], ps[5]];
  }

  lemma {:induction false} FieldAppend(a: seq<(string, string)>, b: seq<(string, string)>, key: string)
    ensures Field(a + b, key) == (if Field(a, key).Some? then Field(a, key) else Field(b, key))
  {
    if a != [] {
      assert (a + b)[1..] == a[1..] + b;
      FieldAppend(a[1..], b, key);
    } else {
      assert a + b == b;
    }
  }

  /** Keys absent from a prefix are looked up in the rest. */
  lemma FieldSkip(a: seq<(string, string)>, b: seq<(string, string)>, key: string)
    requires forall i | 0 <= i < |a| :: a[i].0 != key
    ensures Field(a + b, key) == Field(b, key)
  {
    FieldAppend(a, b, key);
    FieldAbsent(a, key);
  }

  lemma {:induction false} FieldAbsent(a: seq<(string, string)>, key: string)
    requires forall i | 0 <= i < |a| :: a[i].0 != key
    ensures Field(a, key).None?
  {
    if a != [] { FieldAbsent(a[1..], key); }
  }

  /** A parameter that is present and whose key no earlier parameter has is what the
      form body gives for that key. */
  lemma {:induction false} FieldOfFirst(ps: seq<Param>, i: nat)
    requires i < |ps| && !Js.Nullish(ps[i].value)
    requires forall j | 0 <= j < i :: ps[j].key != ps[i].key
    ensures Field(FormEntries(ps), ps[i].key) == Some(Js.ToString(ps[i].value))
  {
    var key := ps[i].key;
    if i == 0 {
      FieldCons((key, Js.ToString(ps[0].value)), FormEntries(ps[1..]), key);
    } else {
      assert ps[1..][i - 1] == ps[i];
      FieldOfFirst(ps[1..], i - 1);
      FieldSkip(Entry(ps[0]), FormEntries(ps[1..]), key);
    }
  }

  /** A key carried only by absent parameters is not in the form body. */
  lemma {:induction false} FieldOfNone(ps: seq<Param>, key: string)
    requires forall j | 0 <= j < |ps| :: ps[j].key != key || Js.Nullish(ps[j].value)
    ensures Field(FormEntries(ps), key).None?
  {
    if ps != [] {
      assert forall j | 0 <= j < |ps[1..]| :: ps[1..][j] == ps[j + 1];
      FieldOfNone(ps[1..], key);
      FieldSkip(Entry(ps[0]), FormEntries(ps[1..]), key);
    }
  }

  /** The parse mode and the keyboard of a `sendMessage` call are in its body exactly
      when they were given. */
  lemma MessageCallExtras(chat: Js.Value, chunk: string, x: Extras)
    ensures var form := MessageCall(chat, chunk, x).form;
      && Field(form, "parse_mode")
         == (if Js.Nullish(x.parseMode) then None else Some(Js.ToString(x.parseMode)))
      && Field(form, "reply_markup")
         == (if Js.Nullish(x.replyMarkup) then None else Some(Js.ToString(x.replyMarkup)))
  {
    var ps := MessageParams(chat, chunk, x);
    if Js.Nullish(x.parseMode) { FieldOfNone(ps, "parse_mode"); } else { FieldOfFirst(ps, 2); }
    if Js.Nullish(x.replyMarkup) { FieldOfNone(ps, "reply_markup"); } else { FieldOfFirst(ps, 5); }
  }

  /** The texts of the chunks a message is sent in. */
  function SentTexts(calls: seq<ApiCall>): seq<string> {
    seq(|calls|, k requires 0 <= k < |calls| => Field(calls[k].form, "text").GetOr(""))
  }

  /** A message that was sent in full arrives as the whole text, cut into pieces of at
      most 4096 characters, one call per piece, each addressed to the resolved chat. */
  lemma SendMessageDeliversText(req: SendRequest, defaultChatId: Js.Value, reply: ApiCall -> TgReply)
    ensures var d := SendMessage(req, defaultChatId, reply);
      d.result.Success? ==>
        && req.text != ""
        && d.result.value == |d.issued| == |Chunks(req.text, MaxLen)|
        && SentTexts(d.issued) == Chunks(req.text, MaxLen)
        && Concat(SentTexts(d.issued)) == req.text
        && (forall k | 0 <= k < |d.issued| :: 0 < |SentTexts(d.issued)[k]| <= MaxLen)
        && (forall k | 0 <= k < |d.issued| ::
              Field(d.issued[k].form, "chat_id") == Some(Js.ToString(Js.Or(req.chatId, defaultChatId))))
  {
    var d := SendMessage(req, defaultChatId, reply);
    if d.result.Success? {
      var chat := Js.Or(req.chatId, defaultChatId);
      var chunks := Chunks(req.text, MaxLen);
      forall k | 0 <= k < |d.issued|
        ensures SentTexts(d.issued)[k] == chunks[k]
        ensures Field(d.issued[k].form, "chat_id") == Some(Js.ToString(chat))
      {
        MessageCallFields(chat, chunks[k], ExtrasOf(req));
      }
      assert SentTexts(d.issued) == chunks;
      ChunksConcat(req.text, MaxLen);
      ChunksSizes(req.text, MaxLen);
    }
  }

  /** A refused send stops at the refused call: every earlier chunk went through, and the
      error names the refusal. No call is made for a missing chat or an empty text. */
  lemma SendMessageStopsAtFailure(req: SendRequest, defaultChatId: Js.Value, reply: ApiCall -> TgReply)
    ensures var d := SendMessage(req, defaultChatId, reply);
      && (!Js.Truthy(req.chatId) && !Js.Truthy(defaultChatId) ==> d == Delivery([], Failure(ChatIdRequired)))
      && (Js.Truthy(Js.Or(req.chatId, defaultChatId)) && req.text == "" ==> d == Delivery([], Failure(TextRequired)))
      && (d.result.Failure? && d.issued != [] ==>
            && (forall j | 0 <= j < |d.issued| - 1 :: Succeeded(reply(d.issued[j])))
            && !Succeeded(reply(d.issued[|d.issued| - 1]))
            && d.result.error == CallFailed("sendMessage", reply(d.issued[|d.issued| - 1])))
  {
    var chat := Js.Or(req.chatId, defaultChatId);
    if Js.Truthy(chat) && req.text != "" {
      FirstFailureIsFirst(PlannedCalls(chat, req.text, ExtrasOf(req)), reply);
    }
  }

  /** Whatever the outcome, the k-th call a send issues is the `sendMessage` of the k-th
      chunk to the resolved chat, and no call is issued without a chat and a text. */
  lemma SendMessageCalls(req: SendRequest, defaultChatId: Js.Value, reply: ApiCall -> TgReply)
    ensures var d := SendMessage(req, defaultChatId, reply);
      var chat := Js.Or(req.chatId, defaultChatId);
      && |d.issued| <= |Chunks(req.text, MaxLen)|
      && (d.issued != [] ==> Js.Truthy(chat) && req.text != "")
      && (forall k | 0 <= k < |d.issued| ::
            d.issued[k] == MessageCall(chat, Chunks(req.text, MaxLen)[k], ExtrasOf(req)))
  {
    var chat := Js.Or(req.chatId, defaultChatId);
    if Js.Truthy(chat) && req.text != "" {
      DeliverIssuesPrefix(PlannedCalls(chat, req.text, ExtrasOf(req)), reply);
    }
  }

  /** A text that fits in one message is sent in exactly one call, and the send
      succeeds exactly when that call is accepted. */
  lemma SendShortMessage(req: SendRequest, defaultChatId: Js.Value, reply: ApiCall -> TgReply)
    requires 0 < |req.text| <= MaxLen && Js.Truthy(Js.Or(req.chatId, defaultChatId))
    ensures var call := MessageCall(Js.Or(req.chatId, defaultChatId), req.text, ExtrasOf(req));
      SendMessage(req, defaultChatId, reply)
      == if Succeeded(reply(call)) then Delivery([call], Success(1))
         else Delivery([call], Failure(CallFailed("sendMessage", reply(call))))
  {
    var call := MessageCall(Js.Or(req.chatId, defaultChatId), req.text, ExtrasOf(req));
    assert Chunks(req.text, MaxLen) == [req.text];
    assert PlannedCalls(Js.Or(req.chatId, defaultChatId), req.text, ExtrasOf(req)) == [call];
    assert [call][1..] == [];
    assert FirstFailure([call], reply) == if Succeeded(reply(call)) then None else Some(0);
  }

  /** Every call issued was accepted. */
  predicate AllSucceeded(issued: seq<ApiCall>, reply: ApiCall -> TgReply) {
    forall k | 0 <= k < |issued| :: Succeeded(reply(issued[k]))
  }

  /** The last call issued was refused after all the others were accepted, and `e` is
      the error it raised. */
  predicate RefusedLast(issued: seq<ApiCall>, e: BotError, reply: ApiCall -> TgReply) {
    && issued != []
    && (forall k | 0 <= k < |issued| - 1 :: Succeeded(reply(issued[k])))
    && !Succeeded(reply(issued[|issued| - 1]))
    && e == CallFailed(issued[|issued| - 1].name, reply(issued[|issued| - 1]))
  }

  /** A send of a non-empty text either has every call accepted, or fails for want of a
      chat before any call, or fails with the refusal of its last call. */
  lemma SendMessageOutcome(req: SendRequest, defaultChatId: Js.Value, reply: ApiCall -> TgReply)
    requires req.text != ""
    ensures var d := SendMessage(req, defaultChatId, reply);
      && (d.result.Success? ==> AllSucceeded(d.issued, reply))
      && (d.result.Failure? ==>
            || (d.issued == [] && d.result.error == ChatIdRequired)
            || RefusedLast(d.issued, d.result.error, reply))
  {
    var chat := Js.Or(req.chatId, defaultChatId);
    SendMessageStopsAtFailure(req, defaultChatId, reply);
    SendMessageOnlySends(req, defaultChatId, reply);
    if Js.Truthy(chat) {
      var planned := PlannedCalls(chat, req.text, ExtrasOf(req));
      FirstFailureIsFirst(planned, reply);
      DeliverIssuesPrefix(planned, reply);
    }
  }

  /** Every call a send issues is a `sendMessage`. */
  lemma SendMessageOnlySends(req: SendRequest, defaultChatId: Js.Value, reply: ApiCall -> TgReply)
    ensures var d := SendMessage(req, defaultChatId, reply);
      forall k | 0 <= k < |d.issued| :: d.issued[k].name == "sendMessage"
  {
    var chat := Js.Or(req.chatId, defaultChatId);
    if Js.Truthy(chat) && req.text != "" {
      var planned := PlannedCalls(chat, req.text, ExtrasOf(req));
      DeliverIssuesPrefix(planned, reply);
    }
  }

  // ===========================================================================
  // handleTelegramUpdate

  datatype Message = Message(chatId: Js.Value, text: string)
  datatype CallbackQuery = CallbackQuery(id: Js.Value, data: Js.Value, message: Option<Message>)
  datatype Update = Update(callbackQuery: Option<CallbackQuery>, message: Option<Message>)

  /** What the handler returns: `{ ok: true }` or `{ ok: false, error }`. */
  datatype Answer = Ok | NotOk(error: BotError)

  /** The calls the handler issued and its answer. */
  datatype Handling = Handling(issued: seq<ApiCall>, answer: Answer)

  const AcceptData: string := "accept_agreement"
  const AcceptedNotice: string := "Соглашение принято ✅"
  const CheckText: string := "Теперь вы можете безопасно запустить AML-проверку вашего кошелька прямо в нашем WebApp:"
  const CheckMarkup: Markup := InlineKeyboard([[Button("🚀 Запустить AML проверку", WebApp("https://amibot.cc/check"))]])
  const StartText: string := "Для использования бота необходимо принять Пользовательское соглашение:"
  const StartMarkup: Markup := InlineKeyboard([[Button("✅ Принимаю соглашение", CallbackData(AcceptData))]])
  /** The error a callback query without a message raises when its chat is read. */
  const NoMessageError: string := "Cannot read properties of undefined (reading 'chat')"

  function AnswerParams(id: Js.Value): seq<Param> {
    [Param("callback_query_id", id), Param("text", Js.Str(AcceptedNotice))]
  }

  function Settle(d: Delivery): Answer {
    if d.result.Success? then Ok else NotOk(d.result.error)
  }

  /** `handleTelegramUpdate` as a value. */
  function Handle(update: Update, defaultChatId: Js.Value, reply: ApiCall -> TgReply): Handling {
    match update.callbackQuery
    case Some(q) =>
      if q.message.None? then Handling([], NotOk(NoMessage))
      else if q.data != Js.Str(AcceptData) then Handling([], Ok)
      else
        var ack := ApiCall("answerCallbackQuery", FormEntries(AnswerParams(q.id)));
        if !Succeeded(reply(ack)) then Handling([ack], NotOk(CallFailed("answerCallbackQuery", reply(ack))))
        else
          var d := SendMessage(SendRequest(q.message.value.chatId, CheckText, Js.Undefined, Js.Undefined,
                                           Some(CheckMarkup)), defaultChatId, reply);
          Handling([ack] + d.issued, Settle(d))
    case None =>
      match update.message
      case None => Handling([], Ok)
      case Some(m) =>
        var text := Trim(m.text);
        if m.text != "" && text == "/getchatid" then
          var d := SendMessage(SendRequest(m.chatId, "Ваш chat_id: " + Js.ToString(m.chatId),
                                           Js.Undefined, Js.Undefined, None), defaultChatId, reply);
          Handling(d.issued, Settle(d))
        else if m.text != "" && text == "/start" then
          var d := SendMessage(SendRequest(m.chatId, StartText, Js.Str("HTML"), Js.Undefined,
                                           Some(StartMarkup)), defaultChatId, reply);
          Handling(d.issued, Settle(d))
        else Handling([], Ok)
  }

  /** `handleTelegramUpdate`: callback queries first, then text messages; every error is
      caught and reported in the answer. */
  method HandleTelegramUpdate(update: Update, defaultChatId: Js.Value, reply: ApiCall -> TgReply)
    returns (h: Handling)
    ensures h == Handle(update, defaultChatId, reply)
  {
    if update.callbackQuery.Some? {
      var q := update.callbackQuery.value;
      if q.message.None? {
        return Handling([], NotOk(NoMessage));
      }
      var chatId := q.message.value.chatId;
      if q.data == Js.Str(AcceptData) {
        var ack, err := TgCall("answerCallbackQuery", AnswerParams(q.id), reply);
        if err.Some? {
          return Handling([ack], NotOk(err.value));
        }
        var d := SendTelegramMessage(SendRequest(chatId, CheckText, Js.Undefined, Js.Undefined,
                                                 Some(CheckMarkup)), defaultChatId, reply);
        return Handling([ack] + d.issued, Settle(d));
      }
      return Handling([], Ok);
    }
    if update.message.Some? && update.message.value.text != "" {
      var m := update.message.value;
      var text := Trim(m.text);
      if text == "/getchatid" {
        var d := SendTelegramMessage(SendRequest(m.chatId, "Ваш chat_id: " + Js.ToString(m.chatId),
                                                 Js.Undefined, Js.Undefined, None), defaultChatId, reply);
        return Handling(d.issued, Settle(d));
      }
      if text == "/start" {
        var d := SendTelegramMessage(SendRequest(m.chatId, StartText, Js.Str("HTML"), Js.Undefined,
                                                 Some(StartMarkup)), defaultChatId, reply);
        return Handling(d.issued, Settle(d));
      }
    }
    return Handling([], Ok);
  }

  /** Pressing the agreement button answers the query first. A refused answer ends the
      handling with its error; an accepted one is followed by the one-message invitation
      to the check, with its WebApp keyboard, whose outcome is the handler's answer. */
  lemma AcceptAnswersFirst(q: CallbackQuery, defaultChatId: Js.Value, reply: ApiCall -> TgReply)
    requires q.message.Some? && q.data == Js.Str(AcceptData)
    ensures var h := Handle(Update(Some(q), None), defaultChatId, reply);
      var ack := ApiCall("answerCallbackQuery", FormEntries(AnswerParams(q.id)));
      var chat := Js.Or(q.message.value.chatId, defaultChatId);
      var invite := MessageCall(chat, CheckText, Extras(Js.Undefined, Js.Undefined, Js.Str(MarkupJson(CheckMarkup))));
      && h.issued != [] && h.issued[0] == ack
      && (!Succeeded(reply(ack)) ==> h == Handling([ack], NotOk(CallFailed("answerCallbackQuery", reply(ack)))))
      && (Succeeded(reply(ack)) && !Js.Truthy(chat) ==> h == Handling([ack], NotOk(ChatIdRequired)))
      && (Succeeded(reply(ack)) && Js.Truthy(chat) ==>
            && h.issued == [ack, invite]
            && h.answer == (if Succeeded(reply(invite)) then Ok else NotOk(CallFailed("sendMessage", reply(invite)))))
  {
    var req := SendRequest(q.message.value.chatId, CheckText, Js.Undefined, Js.Undefined, Some(CheckMarkup));
    if Js.Truthy(Js.Or(req.chatId, defaultChatId)) {
      SendShortMessage(req, defaultChatId, reply);
    }
  }

  /** `/start` answers with the agreement prompt in one HTML message carrying the accept
      button, sent to the message's chat (or the default one). */
  lemma StartReplies(m: Message, defaultChatId: Js.Value, reply: ApiCall -> TgReply)
    requires Trim(m.text) == "/start"
    ensures var h := Handle(Update(None, Some(m)), defaultChatId, reply);
      var chat := Js.Or(m.chatId, defaultChatId);
      var call := MessageCall(chat, StartText, Extras(Js.Str("HTML"), Js.Undefined, Js.Str(MarkupJson(StartMarkup))));
      && (!Js.Truthy(chat) ==> h == Handling([], NotOk(ChatIdRequired)))
      && (Js.Truthy(chat) ==>
            && h.issued == [call]
            && h.answer == (if Succeeded(reply(call)) then Ok else NotOk(CallFailed("sendMessage", reply(call))))
            && Field(call.form, "chat_id") == Some(Js.ToString(chat))
            && Field(call.form, "text") == Some(StartText)
            && Field(call.form, "parse_mode") == Some("HTML")
            && Field(call.form, "reply_markup") == Some(MarkupJson(StartMarkup)))
  {
    var req := SendRequest(m.chatId, StartText, Js.Str("HTML"), Js.Undefined, Some(StartMarkup));
    var chat := Js.Or(m.chatId, defaultChatId);
    assert m.text != "";
    if Js.Truthy(chat) {
      SendShortMessage(req, defaultChatId, reply);
      MessageCallFields(chat, StartText, ExtrasOf(req));
      MessageCallExtras(chat, StartText, ExtrasOf(req));
    }
  }

  /** `/getchatid` answers with "Ваш chat_id: " and the chat id of the message, as plain
      text without a keyboard, to the message's chat (or the default one); the handler's
      answer is the outcome of that send. */
  lemma GetChatIdReplies(m: Message, defaultChatId: Js.Value, reply: ApiCall -> TgReply)
    requires Trim(m.text) == "/getchatid"
    ensures var h := Handle(Update(None, Some(m)), defaultChatId, reply);
      var chat := Js.Or(m.chatId, defaultChatId);
      var text := "Ваш chat_id: " + Js.ToString(m.chatId);
      var d := SendMessage(SendRequest(m.chatId, text, Js.Undefined, Js.Undefined, None), defaultChatId, reply);
      && h.issued == d.issued && h.answer == Settle(d)
      && (!Js.Truthy(chat) ==> h == Handling([], NotOk(ChatIdRequired)))
      && (h.answer == Ok ==> Concat(SentTexts(h.issued)) == text)
      && (forall k | 0 <= k < |h.issued| ::
            && Field(h.issued[k].form, "chat_id") == Some(Js.ToString(chat))
            && Field(h.issued[k].form, "parse_mode").None?
            && Field(h.issued[k].form, "reply_markup").None?)
  {
    var text := "Ваш chat_id: " + Js.ToString(m.chatId);
    var req := SendRequest(m.chatId, text, Js.Undefined, Js.Undefined, None);
    var chat := Js.Or(m.chatId, defaultChatId);
    assert m.text != "";
    SendMessageDeliversText(req, defaultChatId, reply);
    SendMessageCalls(req, defaultChatId, reply);
    var d := SendMessage(req, defaultChatId, reply);
    forall k | 0 <= k < |d.issued|
      ensures && Field(d.issued[k].form, "chat_id") == Some(Js.ToString(chat))
              && Field(d.issued[k].form, "parse_mode").None?
              && Field(d.issued[k].form, "reply_markup").None?
    {
      MessageCallFields(chat, Chunks(text, MaxLen)[k], ExtrasOf(req));
      MessageCallExtras(chat, Chunks(text, MaxLen)[k], ExtrasOf(req));
    }
  }

  /** The handler never throws: `{ ok: true }` means every call it issued was accepted,
      and `{ ok: false }` carries the error that stopped it, which is a callback query
      without a message, a missing chat, or the refusal of the last call it issued. */
  lemma HandleReportsErrors(update: Update, defaultChatId: Js.Value, reply: ApiCall -> TgReply)
    ensures var h := Handle(update, defaultChatId, reply);
      && (h.answer == Ok ==> AllSucceeded(h.issued, reply))
      && (h.answer.NotOk? ==>
            || (h.answer.error == NoMessage && h.issued == [])
            || (h.answer.error == ChatIdRequired && AllSucceeded(h.issued, reply))
            || RefusedLast(h.issued, h.answer.error, reply))
  {
    if update.callbackQuery.Some? {
      var q := update.callbackQuery.value;
      if q.message.Some? && q.data == Js.Str(AcceptData) {
        AcceptReportsErrors(q, defaultChatId, reply);
      }
    } else if update.message.Some? {
      var m := update.message.value;
      if m.text != "" && Trim(m.text) == "/getchatid" {
        SendMessageOutcome(SendRequest(m.chatId, "Ваш chat_id: " + Js.ToString(m.chatId), Js.Undefined,
                                       Js.Undefined, None), defaultChatId, reply);
      } else if m.text != "" && Trim(m.text) == "/start" {
        SendMessageOutcome(SendRequest(m.chatId, StartText, Js.Str("HTML"), Js.Undefined, Some(StartMarkup)),
                           defaultChatId, reply);
      }
    }
  }

  lemma AcceptReportsErrors(q: CallbackQuery, defaultChatId: Js.Value, reply: ApiCall -> TgReply)
    requires q.message.Some? && q.data == Js.Str(AcceptData)
    ensures var h := Handle(Update(Some(q), None), defaultChatId, reply);
      && (h.answer == Ok ==> AllSucceeded(h.issued, reply))
      && (h.answer.NotOk? ==>
            || (h.answer.error == ChatIdRequired && AllSucceeded(h.issued, reply))
            || RefusedLast(h.issued, h.answer.error, reply))
  {
    var ack := ApiCall("answerCallbackQuery", FormEntries(AnswerParams(q.id)));
    if Succeeded(reply(ack)) {
      var req := SendRequest(q.message.value.chatId, CheckText, Js.Undefined, Js.Undefined, Some(CheckMarkup));
      SendMessageOutcome(req, defaultChatId, reply);
      var d := SendMessage(req, defaultChatId, reply);
      if d.result.Failure? { AcceptedFirst(ack, d.issued, d.result.error, reply); }
      else { AcceptedFirst(ack, d.issued, ChatIdRequired, reply); }
    }
  }

  /** An accepted call in front keeps both outcomes of the calls after it. */
  lemma AcceptedFirst(ack: ApiCall, issued: seq<ApiCall>, e: BotError, reply: ApiCall -> TgReply)
    requires Succeeded(reply(ack))
    ensures AllSucceeded(issued, reply) ==> AllSucceeded([ack] + issued, reply)
    ensures RefusedLast(issued, e, reply) ==> RefusedLast([ack] + issued, e, reply)
  {
    var all := [ack] + issued;
    assert forall k | 1 <= k < |all| :: all[k] == issued[k - 1];
  }

  /** Only the agreement button and the two commands make the bot call Telegram. Any
      other update is answered `{ ok: true }` without a call, except a callback query
      without a message, whose chat cannot be read: it is answered with that error. */
  lemma QuietOtherwise(update: Update, defaultChatId: Js.Value, reply: ApiCall -> TgReply)
    ensures var h := Handle(update, defaultChatId, reply);
      var acts :=
        || (update.callbackQuery.Some? && update.callbackQuery.value.message.Some?
            && update.callbackQuery.value.data == Js.Str(AcceptData))
        || (update.callbackQuery.None? && update.message.Some?
            && Trim(update.message.value.text) in ["/getchatid", "/start"]);
      && (h.issued != [] ==> acts)
      && (update.callbackQuery.Some? && update.callbackQuery.value.message.None? ==>
            h == Handling([], NotOk(NoMessage)))
      && (!acts && (update.callbackQuery.None? || update.callbackQuery.value.message.Some?) ==>
            h == Handling([], Ok))
  {
  }
}
