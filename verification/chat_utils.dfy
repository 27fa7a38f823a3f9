/**
 * The server side of the chat stream (dashpool_components_base/chatutils.py): the items an
 * answer is made of, the `Response` that collects them, and the text it streams back, which
 * the chat panel reads line by line while it arrives and as one JSON array at the end.
 *
 * `json.dumps` is the oracle `dumps`, and `uuid.uuid4()` the oracle `ids`: `ids(i)` is the
 * uuid drawn for the i-th element of the stream (responses first, then generators).
 */
module ChatUtils {
  import opened Wrappers
  import opened JsonValues
  import opened Strings
  import Chat

  // ---------------------------------------------------------------------------------------
  // Items

  /** A value handed to `Response.add` that is not callable. */
  datatype Item =
    | File(url: Json, size: Json)
    | Photo(url: Json, width: Json, height: Json)
    | DashpoolEvent(id: Json, data: Json)
    | NodeChangeEvent(id: Json, data: Json)
    | Value(value: Json)   // anything else: sent as it is

  /** `x if x else fallback`. */
  function OrElse(x: Json, fallback: Json): Json {
    if PyTruthy(x) then x else fallback
  }

  /** `to_dict` of the four item classes. */
  function ToDict(item: Item): Json
    requires !item.Value?
  {
    match item
    case File(url, size) =>
      Obj(map["role" := Str("file"), "data" := Obj(map["url" := url, "size" := OrElse(size, Str("File"))])])
    case Photo(url, width, height) =>
      Obj(map["role" := Str("photo"),
              "data" := Obj(map["uri" := url, "width" := OrElse(width, Num(100)), "height" := OrElse(height, Num(100))])])
    case DashpoolEvent(id, data) => Obj(map["role" := Str("dashpoolEvent"), "id" := id, "content" := data])
    case NodeChangeEvent(id, data) => Obj(map["role" := Str("nodeChangeEvent"), "id" := id, "content" := data])
  }

  /** The dict a response is sent as: an item of the four classes is converted, anything else
      is used as it is. */
  function Dict(item: Item): Json {
    if item.Value? then item.value else ToDict(item)
  }

  /** A file reaches the chat panel as a file bubble on the left whose url is the file's and
      whose size is never empty. */
  lemma FileShown(url: Json, size: Json)
    ensures var c := Chat.ToChatMessage(ToDict(File(url, size)));
            && c.FileItem? && Chat.Position(c) == "left"
            && Get(c.data, "url") == Some(url)
            && Get(c.data, "size").Some? && PyTruthy(Get(c.data, "size").value)
            && (PyTruthy(size) ==> Get(c.data, "size") == Some(size))
  {
    assert Chat.HasRole(ToDict(File(url, size)), "file");
  }

  /** A photo reaches the chat panel as a photo bubble whose `uri` is the url and whose width
      and height are never empty. */
  lemma PhotoShown(url: Json, width: Json, height: Json)
    ensures var c := Chat.ToChatMessage(ToDict(Photo(url, width, height)));
            && c.PhotoItem? && Chat.Position(c) == "left"
            && Get(c.data, "uri") == Some(url)
            && PyTruthy(Get(c.data, "width").value) && PyTruthy(Get(c.data, "height").value)
  {
    assert Chat.HasRole(ToDict(Photo(url, width, height)), "photo");
  }

  /** An event reaches the chat panel as the matching host event, with its id and data. */
  lemma EventsQueued(id: Json, data: Json)
    ensures var d := ToDict(DashpoolEvent(id, data));
            Chat.IsEvent(d) && !Chat.IsRecord(d) && Get(d, "id") == Some(id)
            && Chat.EventOf(d) == Chat.DashpoolEvent(Some(data))
    ensures var d := ToDict(NodeChangeEvent(id, data));
            Chat.IsEvent(d) && !Chat.IsRecord(d) && Get(d, "id") == Some(id)
            && Chat.EventOf(d) == Chat.NodeChangeEvent(Some(data))
  {
    assert Chat.HasRole(ToDict(DashpoolEvent(id, data)), "dashpoolEvent");
    assert Chat.HasRole(ToDict(NodeChangeEvent(id, data)), "nodeChangeEvent");
  }

  // ---------------------------------------------------------------------------------------
  // __ensure_id

  const TypeError: string := "TypeError"

  /** `__ensure_id(el)`: a dict without `id` gets the fresh one; `'id' not in el` is a
      substring test on a string and a membership test on a list, and item assignment on
      either raises; on anything else the `in` test raises. */
  function EnsureId(el: Json, freshId: string): (r: Result<Json, string>)
    ensures el.Obj? ==> r.Success? && r.value.Obj? && "id" in r.value.fields
    ensures el.Obj? && "id" in el.fields ==> r == Success(el)
    ensures el.Obj? && "id" !in el.fields ==>
              r.value.fields.Keys == el.fields.Keys + {"id"} && r.value.fields["id"] == Str(freshId)
              && forall k | k in el.fields :: r.value.fields[k] == el.fields[k]
    ensures !el.Obj? ==> (r.Success? ==> r.value == el)
    ensures el.Str? ==> (r.Success? <==> Contains(el.s, "id"))
    ensures el.Arr? ==> (r.Success? <==> Str("id") in el.items)
    ensures el.Null? || el.Bool? || el.Num? ==> r.Failure?
  {
    match el
    case Obj(m) => if "id" in m then Success(el) else Success(Obj(m["id" := Str(freshId)]))
    case Str(s) => if Contains(s, "id") then Success(el) else Failure(TypeError)
    case Arr(items) => if Str("id") in items then Success(el) else Failure(TypeError)
    case _ => Failure(TypeError)
  }

  /** An id, once ensured, is never replaced. */
  lemma EnsureIdStable(el: Json, a: string, b: string)
    requires EnsureId(el, a).Success?
    ensures EnsureId(EnsureId(el, a).value, b) == EnsureId(el, a)
  {
  }

  // ---------------------------------------------------------------------------------------
  // JSON string contents (section 7 of RFC 8259)

  /** The character a two-character escape `\c` stands for. */
  function ShortEscape(c: char): Option<char> {
    if c == '"' then Some('"')
    else if c == '\\' then Some('\\')
    else if c == '/' then Some('/')
    else if c == 'b' then Some('\U{0008}')
    else if c == 'f' then Some('\U{000C}')
    else if c == 'n' then Some('\n')
    else if c == 'r' then Some('\r')
    else if c == 't' then Some('\t')
    else None
  }

  function HexValue(c: char): (r: Option<nat>)
    ensures r.Some? ==> r.value < 16
  {
    if '0' <= c <= '9' then Some(c as int - '0' as int)
    else if 'a' <= c <= 'f' then Some(c as int - 'a' as int + 10)
    else if 'A' <= c <= 'F' then Some(c as int - 'A' as int + 10)
    else None
  }

  function HexDigit(d: nat): (c: char)
    requires d < 16
    ensures HexValue(c) == Some(d)
  {
    if d < 10 then ('0' as int + d) as char else ('a' as int + d - 10) as char
  }

  /** The value of four hexadecimal digits. */
  function Hex4(s: string): (r: Option<nat>)
    requires |s| == 4
    ensures r.Some? ==> r.value < 0x1_0000
  {
    match (HexValue(s[0]), HexValue(s[1]), HexValue(s[2]), HexValue(s[3]))
    case (Some(a), Some(b), Some(c), Some(d)) => Some(((a * 16 + b) * 16 + c) * 16 + d)
    case _ => None
  }

  function Prepend(c: char, rest: Option<string>): Option<string> {
    match rest
    case Some(r) => Some([c] + r)
    case None => None
  }

  /** The first character that the text `s` between the quotes of a string literal stands
      for, with the number of characters that spell it, or `None` where `JSON.parse` throws:
      a raw quote or control character, or a backslash that does not start an escape. (A `\u`
      escape of a UTF-16 surrogate is outside this model.) */
  function DecodeOne(s: string): (r: Option<(char, nat)>)
    requires s != []
    ensures r.Some? ==> 1 <= r.value.1 <= |s|
  {
    if s[0] == '"' || s[0] < ' ' then None
    else if s[0] != '\\' then Some((s[0], 1))
    else if |s| < 2 then None
    else if ShortEscape(s[1]).Some? then Some((ShortEscape(s[1]).value, 2))
    else if s[1] == 'u' && |s| >= 6 && Hex4(s[2..6]).Some? && !(0xD800 <= Hex4(s[2..6]).value < 0xE000) then
      Some((Hex4(s[2..6]).value as char, 6))
    else None
  }

  /** What `JSON.parse` makes of the text between the quotes of a string literal. */
  function Decode(s: string): Option<string>
    decreases |s|
  {
    if s == [] then Some("")
    else
      match DecodeOne(s)
      case None => None
      case Some((c, n)) => Prepend(c, Decode(s[n..]))
  }

  /** What follows a complete escape does not change it. */
  lemma DecodeOnePrefix(a: string, b: string)
    requires a != [] && DecodeOne(a).Some?
    ensures DecodeOne(a + b) == DecodeOne(a)
  {
    var s := a + b;
    assert s[0] == a[0];
    if a[0] == '\\' {
      assert s[1] == a[1];
      if ShortEscape(a[1]).None? {
        assert s[2..6] == a[2..6];
      }
    }
  }

  /** Decoding is compositional at escape boundaries. */
  lemma {:induction false} DecodeAppend(a: string, b: string)
    requires Decode(a).Some? && Decode(b).Some?
    ensures Decode(a + b) == Some(Decode(a).value + Decode(b).value)
    decreases |a|
  {
    if a == [] {
      assert a + b == b && Decode(a).value == [];
      assert [] + Decode(b).value == Decode(b).value;
    } else {
      var (c, n) := DecodeOne(a).value;
      DecodeOnePrefix(a, b);
      assert (a + b)[n..] == a[n..] + b;
      DecodeAppend(a[n..], b);
      var x, y := Decode(a[n..]).value, Decode(b).value;
      assert Decode(a) == Some([c] + x);
      assert Decode(a + b) == Some([c] + (x + y));
      assert [c] + (x + y) == [c] + x + y;
    }
  }

  // ---------------------------------------------------------------------------------------
  // Escaping generator text

  /** The escaping as written: newline, then `'`, then `"`; backslashes stay as they are. */
  function EscapeAsWritten(item: string): string {
    ReplaceChar(ReplaceChar(ReplaceChar(item, '\n', "\\n"), '\'', "\\'"), '"', "\\\"")
  }

  lemma {:induction false} ReplaceAbsent(s: string, c: char, replacement: string)
    requires c !in s
    ensures ReplaceChar(s, c, replacement) == s
    decreases |s|
  {
    if s != [] {
      ReplaceAbsent(s[1..], c, replacement);
      assert [s[0]] + s[1..] == s;
    }
  }

  /** As written, text without a line break or a quote of either kind is sent as it is. */
  lemma EscapeAsWrittenKeeps(s: string)
    requires '\n' !in s && '\'' !in s && '"' !in s
    ensures EscapeAsWritten(s) == s
  {
    ReplaceAbsent(s, '\n', "\\n");
    ReplaceAbsent(s, '\'', "\\'");
    ReplaceAbsent(s, '"', "\\\"");
  }

  lemma {:induction false} ReplaceAppend(a: string, b: string, c: char, replacement: string)
    ensures ReplaceChar(a + b, c, replacement) == ReplaceChar(a, c, replacement) + ReplaceChar(b, c, replacement)
    decreases |a|
  {
    if a == [] {
      assert a + b == b;
    } else {
      assert (a + b)[0] == a[0] && (a + b)[1..] == a[1..] + b;
      ReplaceAppend(a[1..], b, c, replacement);
    }
  }

  /** As written, an apostrophe becomes `\'`. */
  lemma ApostropheEscapedAsWritten()
    ensures EscapeAsWritten("it's") == "it\\'s"
  {
    var r := "\\'";
    ReplaceAbsent("it's", '\n', "\\n");
    assert "it's" == "it" + ("'" + "s");
    ReplaceAppend("it", "'" + "s", '\'', r);
    ReplaceAppend("'", "s", '\'', r);
    ReplaceAbsent("it", '\'', r);
    ReplaceAbsent("s", '\'', r);
    assert ReplaceChar("'", '\'', r) == r + ReplaceChar("", '\'', r);
    assert ReplaceChar("it's", '\'', r) == "it" + (r + "s");
    assert "it" + (r + "s") == "it\\'s";
    ReplaceAbsent("it\\'s", '"', "\\\"");
  }

  /** `\'` is no JSON escape. */
  lemma ApostropheEscapeFails()
    ensures Decode("it\\'s") == None
  {
    var u := "it\\'s";
    assert DecodeOne(u[2..]) == None;
    assert u[1..][1..] == u[2..];
  }

  /** As written, an apostrophe becomes `\'`, which is no JSON escape: the line holding it,
      and the whole answer, no longer parse. */
  lemma ApostropheBreaksJson()
    ensures EscapeAsWritten("it's") == "it\\'s"
    ensures Decode(EscapeAsWritten("it's")) == None
  {
    ApostropheEscapedAsWritten();
    ApostropheEscapeFails();
  }

  /** As written, a backslash is not escaped: the text `\n` arrives as a line break. */
  lemma BackslashChangesText()
    ensures EscapeAsWritten("\\n") == "\\n"
    ensures Decode(EscapeAsWritten("\\n")) == Some("\n")
  {
    var t := "\\n";
    EscapeAsWrittenKeeps(t);
    assert DecodeOne(t) == Some(('\n', 2));
    assert t[2..] == "" && Decode(t[2..]) == Some("");
    assert Decode(t) == Prepend('\n', Decode(t[2..]));
    assert ['\n'] + "" == "\n";
  }

  /** The escape of one character for a JSON string literal. */
  function EscapeChar(c: char): (e: string)
    ensures '\n' !in e && |e| >= 1
  {
    if c == '"' then "\\\""
    else if c == '\\' then "\\\\"
    else if c == '\n' then "\\n"
    else if c < ' ' then "\\u00" + [HexDigit(c as int / 16), HexDigit(c as int % 16)]
    else [c]
  }

  /** The escaping as evidently intended: every character that cannot stand in a JSON string
      literal as it is gets escaped, and nothing else. */
  function Escape(s: string): (e: string)
    ensures '\n' !in e
    decreases |s|
  {
    if s == [] then "" else EscapeChar(s[0]) + Escape(s[1..])
  }

  lemma DecodeEscapeChar(c: char, rest: string)
    ensures Decode(EscapeChar(c) + rest) == Prepend(c, Decode(rest))
  {
    var e := EscapeChar(c);
    if c == '"' || c == '\\' || c == '\n' {
      assert DecodeOne(e) == Some((c, 2));
    } else if c < ' ' {
      var hi, lo := c as int / 16, c as int % 16;
      assert e[2..6] == ['0', '0', HexDigit(hi), HexDigit(lo)];
      assert Hex4(e[2..6]) == Some(c as int);
      assert DecodeOne(e) == Some((c, 6));
    } else {
      assert DecodeOne(e) == Some((c, 1));
    }
    DecodeOnePrefix(e, rest);
    assert (e + rest)[|e|..] == rest;
  }

  /** Escaped text decodes back to the original: the generator's text arrives unchanged. */
  lemma {:induction false} EscapeRoundTrip(s: string)
    ensures Decode(Escape(s)) == Some(s)
    decreases |s|
  {
    if s != [] {
      EscapeRoundTrip(s[1..]);
      DecodeEscapeChar(s[0], Escape(s[1..]));
      assert [s[0]] + s[1..] == s;
    }
  }

  // ---------------------------------------------------------------------------------------
  // The stream

  /** The text of a generator element before its content. */
  function Open(id: string): string {
    "{\"role\": \"assistant\", \"id\": \"" + id + "\" , \"content\": \""
  }

  function Concat(parts: seq<string>): string
    decreases |parts|
  {
    if parts == [] then "" else Concat(parts[..|parts| - 1]) + parts[|parts| - 1]
  }

  /** The escaped items of a generator, in order. */
  function EscapeAll(items: seq<string>): (e: string)
    ensures '\n' !in e
    decreases |items|
  {
    if items == [] then "" else EscapeAll(items[..|items| - 1]) + Escape(items[|items| - 1])
  }

  /** A generator element: one assistant message whose content is the generator's text. */
  function Frame(id: string, items: seq<string>): string {
    Open(id) + EscapeAll(items) + "\"}"
  }

  /** A frame is one line. */
  lemma FrameOneLine(id: string, items: seq<string>)
    requires '\n' !in id
    ensures '\n' !in Frame(id, items)
  {
    var o := "{\"role\": \"assistant\", \"id\": \"";
    var c := "\" , \"content\": \"";
    assert Open(id) == o + id + c;
    assert '\n' !in o && '\n' !in c && '\n' !in "\"}";
  }

  /** The content of a frame decodes to the generator's text. */
  lemma {:induction false} EscapeAllRoundTrip(items: seq<string>)
    ensures Decode(EscapeAll(items)) == Some(Concat(items))
    decreases |items|
  {
    if items != [] {
      var init := items[..|items| - 1];
      var last := items[|items| - 1];
      EscapeAllRoundTrip(init);
      EscapeRoundTrip(last);
      DecodeAppend(EscapeAll(init), Escape(last));
    }
  }

  /** The elements joined with `,` and a line break: every element but the last is followed
      by a comma. */
  function Body(texts: seq<string>): string
    decreases |texts|
  {
    if texts == [] then ""
    else
      var init := texts[..|texts| - 1];
      Body(init) + (if init == [] then "" else ",\n") + texts[|texts| - 1]
  }

  /** The lines of the elements: each followed by a comma but the last. */
  function Commas(texts: seq<string>): seq<string> {
    seq(|texts|, i requires 0 <= i < |texts| => if i + 1 < |texts| then texts[i] + "," else texts[i])
  }

  /** The lines of a complete stream. */
  function Lines(texts: seq<string>): seq<string> {
    ["["] + (if texts == [] then [""] else Commas(texts)) + ["]"]
  }

  /** The complete stream as evidently intended: a JSON array with one element per line. */
  function Stream(texts: seq<string>): string {
    "[\n" + Body(texts) + "\n]"
  }

  lemma {:induction false} BodyLines(texts: seq<string>)
    requires texts != []
    ensures Body(texts) == Join(Commas(texts), '\n')
    decreases |texts|
  {
    var init := texts[..|texts| - 1];
    var last := texts[|texts| - 1];
    if init == [] {
      assert Commas(texts) == [last];
    } else {
      BodyLines(init);
      CommasSnoc(texts);
      var c := Commas(init);
      var p, x := c[..|c| - 1], init[|init| - 1];
      JoinSnoc(p + [x + ","], last, '\n');
      JoinLastAppend(p, x, ",", '\n');
      var j := Join(c, '\n');
      assert Body(texts) == j + ",\n" + last;
      assert Join(Commas(texts), '\n') == j + "," + ['\n'] + last;
      assert j + "," + ['\n'] == j + ",\n";
    }
  }

  /** The lines of a list grown by one: the former last line gains its comma. */
  lemma CommasSnoc(texts: seq<string>)
    requires |texts| >= 2
    ensures var init := texts[..|texts| - 1];
            && Commas(init) == Commas(init)[..|init| - 1] + [init[|init| - 1]]
            && Commas(texts) == Commas(init)[..|init| - 1] + [init[|init| - 1] + ","] + [texts[|texts| - 1]]
  {
  }

  lemma {:induction false} JoinSnoc(ps: seq<string>, q: string, sep: char)
    requires ps != []
    ensures Join(ps + [q], sep) == Join(ps, sep) + [sep] + q
    decreases |ps|
  {
    if |ps| > 1 {
      assert (ps + [q])[1..] == ps[1..] + [q];
      JoinSnoc(ps[1..], q, sep);
    }
  }

  /** The lines `p`, then `mid`, then `q`, joined. */
  lemma JoinFrame(p: string, mid: seq<string>, q: string, sep: char)
    requires mid != []
    ensures Join([p] + mid + [q], sep) == p + [sep] + Join(mid, sep) + [sep] + q
  {
    assert [p] + mid + [q] == [p] + (mid + [q]);
    JoinFront(p, mid + [q], sep);
    JoinSnoc(mid, q, sep);
    var j := Join(mid, sep);
    Assoc(p + [sep], j + [sep], q);
    Assoc(p + [sep], j, [sep]);
  }

  lemma JoinFront(p: string, rest: seq<string>, sep: char)
    requires rest != []
    ensures Join([p] + rest, sep) == p + [sep] + Join(rest, sep)
  {
    assert ([p] + rest)[1..] == rest;
  }

  lemma {:induction false} JoinLastAppend(ps: seq<string>, a: string, x: string, sep: char)
    ensures Join(ps + [a + x], sep) == Join(ps + [a], sep) + x
    decreases |ps|
  {
    if ps != [] {
      assert (ps + [a + x])[1..] == ps[1..] + [a + x];
      assert (ps + [a])[1..] == ps[1..] + [a];
      JoinLastAppend(ps[1..], a, x, sep);
    }
  }

  /** Each element of the stream arrives on a line of its own, followed by a comma unless it
      is the last: the chat panel's line-by-line pass sees every element whole. */
  lemma StreamLines(texts: seq<string>)
    requires forall i | 0 <= i < |texts| :: '\n' !in texts[i]
    ensures Split(Stream(texts), '\n') == Lines(texts)
  {
    var mid := if texts == [] then [""] else Commas(texts);
    assert Join(mid, '\n') == Body(texts) by {
      if texts != [] { BodyLines(texts); }
    }
    var all := ["["] + mid + ["]"];
    var j := Join(mid, '\n');
    JoinFrame("[", mid, "]", '\n');
    assert "[" + ['\n'] == "[\n" && ['\n'] + "]" == "\n]";
    Assoc("[\n" + j, ['\n'], "]");
    assert Join(all, '\n') == Stream(texts);
    forall i | 0 <= i < |all|
      ensures '\n' !in all[i]
    {
      if 1 <= i <= |mid| {
        assert all[i] == mid[i - 1];
      }
    }
    SplitJoin(all, '\n');
  }

  /** Every part followed by `suffix`, in order. */
  function Suffixed(parts: seq<string>, suffix: string): string
    decreases |parts|
  {
    if parts == [] then "" else Suffixed(parts[..|parts| - 1], suffix) + parts[|parts| - 1] + suffix
  }

  /** The layout as written: each response followed by a line holding only a comma, then
      every generator element followed by a line break, then `]`. */
  function StreamAsWritten(texts: seq<string>, frames: seq<string>): string {
    "[\n" + Suffixed(texts, "\n,\n") + Suffixed(frames, "\n") + "]"
  }

  /** As written, responses without a generator leave a comma before the closing bracket,
      which JSON forbids, so the chat panel's final parse fails: without generators the stream
      ends in `,\n]` exactly when there is some response. */
  lemma TrailingCommaAsWritten(texts: seq<string>)
    ensures EndsWith(StreamAsWritten(texts, []), ",\n]") <==> texts != []
    ensures texts == [] ==> StreamAsWritten(texts, []) == "[\n]"
  {
    var s := StreamAsWritten(texts, []);
    assert Suffixed([], "\n") == "";
    if texts == [] {
      assert s == "[\n]";
      assert s[|s| - 3..] == s;
    } else {
      var a := "[\n" + Suffixed(texts[..|texts| - 1], "\n,\n") + texts[|texts| - 1] + "\n";
      assert "\n,\n" + "]" == "\n" + ",\n]";
      assert s == a + ",\n]";
      assert s[|s| - 3..] == ",\n]";
    }
  }

  /** As written, consecutive generators are sent one after the other with only a line break
      between them and no comma, whatever came before: the last two elements of the array are
      adjacent. */
  lemma AdjacentFramesAsWritten(texts: seq<string>, frames: seq<string>)
    requires |frames| >= 2
    ensures var n := |frames|;
            StreamAsWritten(texts, frames) ==
              "[\n" + Suffixed(texts, "\n,\n") + Suffixed(frames[..n - 2], "\n")
                + frames[n - 2] + "\n" + frames[n - 1] + "\n]"
  {
    var n := |frames|;
    assert frames[..n][..n - 1] == frames[..n - 1];
    assert frames[..n - 1][..n - 2] == frames[..n - 2];
    assert frames[..n] == frames;
    assert Suffixed(frames[..n - 1], "\n") == Suffixed(frames[..n - 2], "\n") + frames[n - 2] + "\n";
    assert Suffixed(frames, "\n") == Suffixed(frames[..n - 1], "\n") + frames[n - 1] + "\n";
  }

  // ---------------------------------------------------------------------------------------
  // Response

  /** A value handed to `Response.add`: a callable (a generator function, given by the items
      it yields) or anything else. */
  datatype Addable = Callable(items: seq<string>) | Plain(item: Item)

  /** The dict of every response with its id ensured, in order. */
  function Stamped(responses: seq<Item>, ids: nat -> string): seq<Result<Json, string>> {
    seq(|responses|, i requires 0 <= i < |responses| => EnsureId(Dict(responses[i]), ids(i)))
  }

  /** How many responses are sent before the first one whose id cannot be ensured. */
  function Sent(rs: seq<Result<Json, string>>): (k: nat)
    ensures k <= |rs| && (k < |rs| ==> rs[k].Failure?)
    ensures forall j | 0 <= j < k :: rs[j].Success?
    decreases |rs|
  {
    if rs == [] || rs[0].Failure? then 0 else 1 + Sent(rs[1..])
  }

  /** The first `n` response texts. */
  function Dumped(rs: seq<Result<Json, string>>, n: nat, dumps: Json -> string): seq<string>
    requires n <= Sent(rs)
  {
    seq(n, i requires 0 <= i < n => dumps(rs[i].value))
  }

  /** The generator elements, numbered after the responses. */
  function Frames(generators: seq<seq<string>>, ids: nat -> string, base: nat): seq<string> {
    seq(|generators|, j requires 0 <= j < |generators| => Frame(ids(base + j), generators[j]))
  }

  /** The text sent: the whole array, or, when a response's id cannot be ensured, what was
      sent before the error. */
  function StreamText(responses: seq<Item>, generators: seq<seq<string>>, ids: nat -> string,
                      dumps: Json -> string): string
  {
    var rs := Stamped(responses, ids);
    var k := Sent(rs);
    if k < |rs| then "[\n" + Body(Dumped(rs, k, dumps))
    else Stream(Dumped(rs, k, dumps) + Frames(generators, ids, |responses|))
  }

  /** A stream that completes has one line per response and per generator between the
      brackets. */
  lemma CompleteStreamLines(responses: seq<Item>, generators: seq<seq<string>>, ids: nat -> string,
                            dumps: Json -> string)
    requires forall d: Json :: '\n' !in dumps(d)
    requires forall i: nat :: '\n' !in ids(i)
    requires Sent(Stamped(responses, ids)) == |responses|
    ensures |Split(StreamText(responses, generators, ids, dumps), '\n')| == |responses| + |generators| + 2
              || (responses == [] && generators == [])
  {
    var rs := Stamped(responses, ids);
    var texts := Dumped(rs, |responses|, dumps) + Frames(generators, ids, |responses|);
    forall i | 0 <= i < |texts|
      ensures '\n' !in texts[i]
    {
      if i < |responses| {
        assert texts[i] == dumps(rs[i].value);
      } else {
        var j := i - |responses|;
        assert texts[i] == Frame(ids(|responses| + j), generators[j]);
        FrameOneLine(ids(|responses| + j), generators[j]);
      }
    }
    StreamLines(texts);
    assert StreamText(responses, generators, ids, dumps) == Stream(texts);
  }

  /** The dicts that were stamped stay in the list with their new id; everything else is
      unchanged. */
  function Restamped(responses: seq<Item>, rs: seq<Result<Json, string>>, n: nat): seq<Item>
    requires |rs| == |responses| && n <= Sent(rs)
  {
    seq(|responses|, i requires 0 <= i < |responses| =>
      if i < n && responses[i].Value? then Value(rs[i].value) else responses[i])
  }

  /** Sending an answer twice sends the same ids for the dicts that were stamped the first
      time. */
  lemma RestampStable(responses: seq<Item>, ids: nat -> string, ids': nat -> string, i: nat)
    requires i < Sent(Stamped(responses, ids)) && responses[i].Value?
    ensures var again := Restamped(responses, Stamped(responses, ids), Sent(Stamped(responses, ids)));
            Stamped(again, ids')[i] == Stamped(responses, ids)[i]
  {
    var rs := Stamped(responses, ids);
    assert rs[i].Success? && rs[i] == EnsureId(responses[i].value, ids(i));
    EnsureIdStable(responses[i].value, ids(i), ids'(i));
  }

  /** One generator element as chunks: the opening, each escaped item, the closing. */
  method FrameChunks(id: string, items: seq<string>) returns (chunks: seq<string>)
    ensures Concat(chunks) == Frame(id, items)
    ensures |chunks| == |items| + 2
  {
    chunks := [Open(id)];
    Concat1(Open(id));
    assert items[..0] == [];
    var m := 0;
    while m < |items|
      invariant 0 <= m <= |items| && |chunks| == m + 1
      invariant Concat(chunks) == Open(id) + EscapeAll(items[..m])
    {
      EscapeStep(chunks, Open(id), items, m);
      chunks := chunks + [Escape(items[m])];
      m := m + 1;
    }
    assert items[..m] == items;
    Concat1("\"}");
    ConcatAppend(chunks, ["\"}"]);
    chunks := chunks + ["\"}"];
  }

  /** One more escaped item. */
  lemma EscapeStep(chunks: seq<string>, open: string, items: seq<string>, m: nat)
    requires m < |items| && Concat(chunks) == open + EscapeAll(items[..m])
    ensures Concat(chunks + [Escape(items[m])]) == open + EscapeAll(items[..m + 1])
  {
    var e := Escape(items[m]);
    assert items[..m + 1][..m] == items[..m];
    assert EscapeAll(items[..m + 1]) == EscapeAll(items[..m]) + e;
    Concat1(e);
    ConcatAppend(chunks, [e]);
    Assoc(open, EscapeAll(items[..m]), e);
  }

  lemma Assoc(a: string, b: string, c: string)
    ensures a + b + c == a + (b + c)
  {
  }

  /** The responses part of `generate_response`: each response's dict, with its id ensured,
      sent as one element of the array, up to the first whose id cannot be ensured; the dicts
      that were stamped replace the originals. */
  method SendResponses(list: seq<Item>, ids: nat -> string, dumps: Json -> string)
    returns (chunks: seq<string>, texts: seq<string>, stamped: seq<Item>, sent: nat)
    ensures var rs := Stamped(list, ids);
            && sent == Sent(rs) && texts == Dumped(rs, sent, dumps)
            && stamped == Restamped(list, rs, sent)
    ensures Concat(chunks) == "[\n" + Body(texts)
  {
    ghost var rs := Stamped(list, ids);
    chunks := ["[\n"];
    texts := [];
    stamped := list;
    sent := 0;
    RestampNone(list, rs);
    while sent < |list|
      invariant sent <= |list| && sent <= Sent(rs)
      invariant texts == Dumped(rs, sent, dumps)
      invariant Concat(chunks) == "[\n" + Body(texts)
      invariant stamped == Restamped(list, rs, sent)
    {
      var d := EnsureId(Dict(list[sent]), ids(sent));
      assert d == rs[sent];
      if d.Failure? {
        SentAt(rs, sent);
        return;
      }
      StampStep(list, rs, sent, dumps);
      Concat1(dumps(d.value));
      ExtendStream(chunks, texts, [dumps(d.value)], dumps(d.value));
      chunks := chunks + Separator(texts) + [dumps(d.value)];
      texts := texts + [dumps(d.value)];
      stamped := stamped[sent := if list[sent].Value? then Value(d.value) else list[sent]];
      sent := sent + 1;
    }
  }

  /** The generators part of `generate_response`: one element per generator, after the
      elements already sent. */
  method SendGenerators(gens: seq<seq<string>>, ids: nat -> string, base: nat,
                        chunks0: seq<string>, texts0: seq<string>)
    returns (chunks: seq<string>, texts: seq<string>)
    requires Concat(chunks0) == "[\n" + Body(texts0)
    ensures texts == texts0 + Frames(gens, ids, base)
    ensures Concat(chunks) == "[\n" + Body(texts)
  {
    chunks, texts := chunks0, texts0;
    var j := 0;
    assert Frames(gens[..0], ids, base) == [];
    while j < |gens|
      invariant 0 <= j <= |gens|
      invariant texts == texts0 + Frames(gens[..j], ids, base)
      invariant Concat(chunks) == "[\n" + Body(texts)
    {
      var f := Frame(ids(base + j), gens[j]);
      var frame := FrameChunks(ids(base + j), gens[j]);
      ExtendStream(chunks, texts, frame, f);
      FramesSnoc(texts0, gens, ids, base, j);
      chunks := chunks + Separator(texts) + frame;
      texts := texts + [f];
      j := j + 1;
    }
    assert gens[..j] == gens;
  }

  class Response {
    var responses: seq<Item>
    var generators: seq<seq<string>>

    constructor()
      ensures responses == [] && generators == []
    {
      responses := [];
      generators := [];
    }

    /** `add`: a callable joins the generators, anything else the responses, in order. */
    method Add(x: Addable)
      modifies this`responses, this`generators
      ensures x.Callable? ==> generators == old(generators) + [x.items] && responses == old(responses)
      ensures x.Plain? ==> responses == old(responses) + [x.item] && generators == old(generators)
    {
      if x.Callable? {
        generators := generators + [x.items];
      } else {
        responses := responses + [x.item];
      }
    }

    /** `generate_response`, with the escaping and the commas as evidently intended: the
        responses with their ids ensured, then the generators, as one JSON array; it stops at
        the first response whose id cannot be ensured. The stamped dicts keep their ids. */
    method GenerateResponse(ids: nat -> string, dumps: Json -> string) returns (chunks: seq<string>, complete: bool)
      modifies this`responses
      ensures complete <==> Sent(Stamped(old(responses), ids)) == |old(responses)|
      ensures Concat(chunks) == StreamText(old(responses), generators, ids, dumps)
      ensures var rs := Stamped(old(responses), ids);
              responses == Restamped(old(responses), rs, Sent(rs))
    {
      var list := responses;
      var texts, stamped, sent;
      chunks, texts, stamped, sent := SendResponses(list, ids, dumps);
      responses := stamped;
      if sent < |list| {
        return chunks, false;
      }
      chunks, texts := SendGenerators(generators, ids, |list|, chunks, texts);
      Concat1("\n]");
      ConcatAppend(chunks, ["\n]"]);
      chunks := chunks + ["\n]"];
      complete := true;
    }
  }

  /** Before any response is sent, the list is as it was. */
  lemma RestampNone(list: seq<Item>, rs: seq<Result<Json, string>>)
    requires |rs| == |list|
    ensures Restamped(list, rs, 0) == list
  {
  }

  /** Sending one more response adds its text and, for a dict, its stamped copy. */
  lemma {:induction false} StampStep(list: seq<Item>, rs: seq<Result<Json, string>>, i: nat, dumps: Json -> string)
    requires |rs| == |list| && i < Sent(rs)
    ensures Dumped(rs, i + 1, dumps) == Dumped(rs, i, dumps) + [dumps(rs[i].value)]
    ensures Restamped(list, rs, i + 1)
              == Restamped(list, rs, i)[i := if list[i].Value? then Value(rs[i].value) else list[i]]
  {
  }

  /** One more generator element. */
  lemma FramesSnoc(texts0: seq<string>, gens: seq<seq<string>>, ids: nat -> string, base: nat, j: nat)
    requires j < |gens|
    ensures texts0 + Frames(gens[..j + 1], ids, base)
              == texts0 + Frames(gens[..j], ids, base) + [Frame(ids(base + j), gens[j])]
  {
    assert Frames(gens[..j + 1], ids, base) == Frames(gens[..j], ids, base) + [Frame(ids(base + j), gens[j])];
  }

  lemma SentAt(rs: seq<Result<Json, string>>, i: nat)
    requires i <= Sent(rs) && i < |rs| && rs[i].Failure?
    ensures Sent(rs) == i
  {
  }

  lemma ConcatAppend(a: seq<string>, b: seq<string>)
    ensures Concat(a + b) == Concat(a) + Concat(b)
    decreases |b|
  {
    if b != [] {
      assert (a + b)[..|a + b| - 1] == a + b[..|b| - 1];
      ConcatAppend(a, b[..|b| - 1]);
    } else {
      assert a + b == a;
    }
  }

  /** The chunk between two elements of the array. */
  function Separator(texts: seq<string>): seq<string> {
    if texts == [] then [] else [",\n"]
  }

  lemma Concat1(x: string)
    ensures Concat([x]) == x
  {
    assert [x][..0] == [];
  }

  /** A further element extends the stream by a separator and its text. */
  lemma ExtendStream(chunks: seq<string>, texts: seq<string>, more: seq<string>, t: string)
    requires Concat(chunks) == "[\n" + Body(texts)
    requires Concat(more) == t
    ensures Concat(chunks + Separator(texts) + more) == "[\n" + Body(texts + [t])
  {
    var sep := if texts == [] then "" else ",\n";
    assert Body(texts + [t]) == Body(texts) + sep + t by {
      assert (texts + [t])[..|texts|] == texts;
    }
    ConcatAppend(chunks, Separator(texts));
    ConcatAppend(chunks + Separator(texts), more);
    assert Concat(Separator(texts)) == sep by {
      if texts != [] { Concat1(",\n"); }
    }
    Assoc("[\n", Body(texts), sep);
    Assoc("[\n", Body(texts) + sep, t);
  }
}
