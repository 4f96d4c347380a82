/** `AITaskParser`: turning the chat model's reply into a `ParsedTask`. The
    HTTP round trip is the parameter `reply` (its failure being any exception
    the call raises), Gson's `fromJson(.., Map::class.java)` on a non-empty
    text is the parameter `decode` (`None` being its `JsonSyntaxException`),
    `SimpleDateFormat("yyyy-MM-dd HH:mm").parse(..).time` is `parseDate`, the
    subtask UUIDs are `newId(0)`, `newId(1)`, ... and the clock is `now`. */
module AITaskParser {
  import opened Wrappers
  import opened KotlinText
  import opened Todos

  /** A JSON value as Gson hands it back inside a `Map`. Gson reads every
      number as a `Double`; `JNumber` holds that number's `toLong()` before
      saturation, i.e. its value rounded toward zero. */
  datatype Json =
    | JNull
    | JBool(b: bool)
    | JNumber(n: int)
    | JString(s: string)
    | JArray(items: seq<Json>)
    | JObject(fields: map<string, Json>)

  /** The top-level JSON object of the reply. */
  type JsonObject = map<string, Json>

  /** The data class `ParsedTask`. */
  datatype ParsedTask = ParsedTask(
    title: string,
    description: string,
    priority: Priority,
    dueDate: Option<Long>,
    reasoning: string,
    subTasks: seq<SubTask>)

  /** Why `parseTask` returned `Result.failure`. */
  datatype ParseError =
    | CallFailed(message: string)   // the API call threw
    | NoJsonObject                  // `substring` threw: no '{', or the last '}' lies before it
    | EmptyJson                     // Gson read "" as null and the map lookup threw
    | MalformedJson                 // Gson threw on the extracted text

  /** The title used when the reply has no string `title`: "新任务". */
  const DEFAULT_TITLE: string := "新任务"

  /** Numbers below this are read as seconds, not milliseconds. */
  const SECONDS_LIMIT: int := 1_000_000_000_000

  /** `response.substring(indexOf("{"), lastIndexOf("}") + 1)`. */
  function ExtractJson(response: string): (r: Option<string>)
    ensures r.Some? <==> '{' in response && LastIndexOf(response, '}') >= IndexOf(response, '{') - 1
    ensures r.Some? ==> r.value == response[IndexOf(response, '{')..LastIndexOf(response, '}') + 1]
  {
    Substring(response, IndexOf(response, '{'), LastIndexOf(response, '}') + 1)
  }

  /** What the extraction gives: a text from the first '{' to the last '}'
      of the reply when the last '}' follows the first '{'; the empty text
      when the last '}' sits just before the first '{' or there is no '}'
      and the reply starts with '{'; and a failure in every other case. */
  lemma ExtractJsonCases(response: string)
    ensures var r := ExtractJson(response);
            r.Some? && r.value != [] ==>
              r.value[0] == '{' && r.value[|r.value| - 1] == '}'
              && '{' !in response[..IndexOf(response, '{')]
              && '}' !in response[LastIndexOf(response, '}') + 1..]
    ensures ExtractJson(response) == Some([]) <==>
              '{' in response && LastIndexOf(response, '}') == IndexOf(response, '{') - 1
    ensures '{' !in response ==> ExtractJson(response).None?
    ensures '{' in response && '}' in response && LastIndexOf(response, '}') > IndexOf(response, '{') ==>
              ExtractJson(response).Some? && |ExtractJson(response).value| >= 2
  {
  }

  /** Worked examples of the extraction. */
  lemma ExtractJsonExamples()
    ensures ExtractJson("x{}y") == Some("{}")
    ensures ExtractJson("{") == Some("")
    ensures ExtractJson("}{") == Some("")
    ensures ExtractJson("}x{") == None
    ensures ExtractJson("x") == None
  {
    assert "x{}y"[1..] == "{}y" && "{}y"[1..] == "}y";
    assert "x{}y"[..3] == "x{}";
    assert "x{}y"[1..3] == "{}";
    assert "}{"[1..] == "{";
    assert "}{"[..1] == "}";
    assert "}x{"[1..] == "x{" && "x{"[1..] == "{";
    assert "}x{"[..2] == "}x" && "}x"[..1] == "}";
  }

  /** `parsed[key] as? String`. */
  function StringField(obj: JsonObject, key: string): (r: Option<string>)
    ensures r.Some? <==> key in obj && obj[key].JString?
    ensures r.Some? ==> obj[key] == JString(r.value)
  {
    if key in obj && obj[key].JString? then Some(obj[key].s) else None
  }

  /** `parsed[key]`: Kotlin's null for a missing key. */
  function Field(obj: JsonObject, key: string): Option<Json> {
    if key in obj then Some(obj[key]) else None
  }

  /** `parsePriority`: `Priority.valueOf` of the upper-cased string, MEDIUM
      for null or for a string that names no level. */
  function ParsePriority(value: Option<string>): (r: Priority)
    ensures value.None? ==> r == MEDIUM
    ensures value.Some? ==> (r == MEDIUM || Uppercase(value.value) == r.Name())
  {
    var name := if value.Some? then Uppercase(value.value) else "MEDIUM";
    ValueOf(name).GetOr(MEDIUM)
  }

  /** Any capitalisation of a level's name gives that level, and a string
      that matches no name, ignoring case, gives MEDIUM. */
  lemma ParsePriorityIgnoresCase(s: string, p: Priority)
    ensures EqualsIgnoreCase(s, p.Name()) ==> ParsePriority(Some(s)) == p
    ensures (forall q: Priority :: !EqualsIgnoreCase(s, q.Name())) ==> ParsePriority(Some(s)) == MEDIUM
  {
    if EqualsIgnoreCase(s, p.Name()) {
      UppercaseOfName(s, p);
    }
    var r := ParsePriority(Some(s));
    if r != MEDIUM {
      NameIsUppercase(s, r);
    }
  }

  /** A string equal to a name, ignoring case, upper-cases to the name. */
  lemma UppercaseOfName(s: string, p: Priority)
    requires EqualsIgnoreCase(s, p.Name())
    ensures Uppercase(s) == p.Name()
  {
    var n := p.Name();
    assert forall i :: 0 <= i < |n| ==> 'A' <= n[i] <= 'Z' && UpperChar(n[i]) == n[i];
  }

  /** A string that upper-cases to a name equals it, ignoring case. */
  lemma NameIsUppercase(s: string, p: Priority)
    requires Uppercase(s) == p.Name()
    ensures EqualsIgnoreCase(s, p.Name())
  {
    var n := p.Name();
    assert forall i :: 0 <= i < |n| ==> 'A' <= n[i] <= 'Z' && UpperChar(n[i]) == n[i];
    assert forall i :: 0 <= i < |s| ==> UpperChar(s[i]) == Uppercase(s)[i];
  }

  /** Every level survives its own name. */
  lemma ParsePriorityOfName(p: Priority)
    ensures ParsePriority(Some(p.Name())) == p
  {
    var n := p.Name();
    assert forall i :: 0 <= i < |n| ==> 'A' <= n[i] <= 'Z' && UpperChar(n[i]) == n[i];
    assert Uppercase(n) == n;
  }

  /** Illustrative replies: "urgent" is URGENT, an unknown word or a
      missing value is MEDIUM. */
  lemma ParsePriorityExamples()
    ensures ParsePriority(Some("urgent")) == URGENT
    ensures ParsePriority(Some("High")) == HIGH
    ensures ParsePriority(Some("banana")) == MEDIUM
    ensures ParsePriority(None) == MEDIUM
  {
    assert Uppercase("urgent") == "URGENT";
    assert Uppercase("High") == "HIGH";
    assert |Uppercase("banana")| == 6 && Uppercase("banana")[0] == 'B';
  }

  /** A subtask title as kept: not empty, and neither starting nor ending
      with whitespace. */
  predicate CleanTitle(t: string) {
    t != [] && !IsWhitespace(t[0]) && !IsWhitespace(t[|t| - 1])
  }

  /** Such a title is not blank and is its own trim. */
  lemma CleanTitleIsTrimmed(t: string)
    requires CleanTitle(t)
    ensures !IsBlank(t) && Trim(t) == t
  {
    assert TrimStart(t) == t;
    assert TrimEnd(t) == t;
  }

  /** `mapNotNull`: the non-null images of the items, in item order. */
  function MapNotNull<T, U>(f: T -> Option<U>, items: seq<T>): (r: seq<U>)
    ensures |r| <= |items|
  {
    if items == [] then []
    else (if f(items[0]).Some? then [f(items[0]).value] else []) + MapNotNull(f, items[1..])
  }

  /** `mapNotNull` works item by item: the images of a concatenation are the
      concatenated images, so the kept items keep their order. */
  lemma {:induction false} MapNotNullAppend<T, U>(f: T -> Option<U>, a: seq<T>, b: seq<T>)
    ensures MapNotNull(f, a + b) == MapNotNull(f, a) + MapNotNull(f, b)
  {
    if a == [] {
      assert a + b == b;
    } else {
      var head := if f(a[0]).Some? then [f(a[0]).value] else [];
      assert (a + b)[0] == a[0] && (a + b)[1..] == a[1..] + b;
      assert MapNotNull(f, a + b) == head + MapNotNull(f, a[1..] + b);
      MapNotNullAppend(f, a[1..], b);
      assert MapNotNull(f, a) == head + MapNotNull(f, a[1..]);
    }
  }

  /** What one list item gives: its trimmed text when it is a string that is
      not blank, null otherwise. */
  function KeptTitle(x: Json): (r: Option<string>)
    ensures r.Some? ==> CleanTitle(r.value)
  {
    if x.JString? && !IsBlank(x.s) then Some(Trim(x.s)) else None
  }

  /** The subtask titles kept from a JSON list: the string items that are not
      blank, trimmed, in list order; other items are dropped. */
  function SubTaskTitles(items: seq<Json>): (r: seq<string>)
    ensures |r| <= |items|
  {
    MapNotNull(KeptTitle, items)
  }

  /** Every kept title is clean. */
  lemma {:induction false} SubTaskTitlesClean(items: seq<Json>)
    ensures forall i :: 0 <= i < |SubTaskTitles(items)| ==> CleanTitle(SubTaskTitles(items)[i])
  {
    if items != [] {
      SubTaskTitlesClean(items[1..]);
      var k := KeptTitle(items[0]);
      var head, tail := if k.Some? then [k.value] else [], SubTaskTitles(items[1..]);
      assert SubTaskTitles(items) == head + tail by {
        assert MapNotNull(KeptTitle, items) == head + MapNotNull(KeptTitle, items[1..]);
      }
      CleanConcat(head, tail);
    }
  }

  /** Joining two lists of clean titles gives a list of clean titles. */
  lemma CleanConcat(head: seq<string>, tail: seq<string>)
    requires forall i :: 0 <= i < |head| ==> CleanTitle(head[i])
    requires forall i :: 0 <= i < |tail| ==> CleanTitle(tail[i])
    ensures forall i :: 0 <= i < |head + tail| ==> CleanTitle((head + tail)[i])
  {
    forall i | 0 <= i < |head + tail| ensures CleanTitle((head + tail)[i]) {
      if i >= |head| { assert (head + tail)[i] == tail[i - |head|]; }
    }
  }

  /** The titles of a concatenation are the concatenated titles. */
  lemma SubTaskTitlesAppend(a: seq<Json>, b: seq<Json>)
    ensures SubTaskTitles(a + b) == SubTaskTitles(a) + SubTaskTitles(b)
  {
    MapNotNullAppend(KeptTitle, a, b);
  }

  /** One item gives its trimmed text when it is a string that is not blank,
      and nothing otherwise. */
  lemma SubTaskTitlesSingle(x: Json)
    ensures SubTaskTitles([x]) == if x.JString? && !IsBlank(x.s) then [Trim(x.s)] else []
  {
    assert [x][1..] == [];
  }

  /** When `f` keeps every item, `mapNotNull` is a plain map. */
  lemma {:induction false} MapNotNullAllSome<T, U>(f: T -> Option<U>, items: seq<T>)
    requires forall i :: 0 <= i < |items| ==> f(items[i]).Some?
    ensures |MapNotNull(f, items)| == |items|
    ensures forall i :: 0 <= i < |items| ==> MapNotNull(f, items)[i] == f(items[i]).value
  {
    if items != [] {
      var rest := items[1..];
      assert forall i :: 0 <= i < |rest| ==> rest[i] == items[i + 1];
      MapNotNullAllSome(f, rest);
      assert MapNotNull(f, items) == [f(items[0]).value] + MapNotNull(f, rest);
    }
  }

  /** A list of non-blank strings loses no item. */
  lemma SubTaskTitlesAllStrings(items: seq<Json>)
    requires forall i :: 0 <= i < |items| ==> items[i].JString? && !IsBlank(items[i].s)
    ensures |SubTaskTitles(items)| == |items|
    ensures forall i :: 0 <= i < |items| ==> SubTaskTitles(items)[i] == Trim(items[i].s)
  {
    assert forall i :: 0 <= i < |items| ==> KeptTitle(items[i]) == Some(Trim(items[i].s));
    MapNotNullAllSome(KeptTitle, items);
  }

  /** `parseSubTasks`: a subtask per kept title, with a newId id each; a value
      that is not a list gives no subtasks. */
  function ParseSubTasks(value: Option<Json>, newId: nat -> string, now: Long): (r: seq<SubTask>)
    ensures !(value.Some? && value.value.JArray?) ==> r == []
    ensures value.Some? && value.value.JArray? ==>
              var titles := SubTaskTitles(value.value.items);
              |r| == |titles| &&
              forall i :: 0 <= i < |r| ==> r[i] == NewSubTask(newId(i), titles[i], now)
    ensures forall i :: 0 <= i < |r| ==> !IsBlank(r[i].title) && !r[i].isCompleted
  {
    if value.Some? && value.value.JArray? then
      var titles := SubTaskTitles(value.value.items);
      SubTaskTitlesClean(value.value.items);
      seq(|titles|, i requires 0 <= i < |titles| => NewSubTask(newId(i), titles[i], now))
    else []
  }

  /** `Number.toLong()` within `Long`: it saturates at the bounds. */
  function SaturateLong(n: int): (r: Long)
    ensures LONG_MIN <= n <= LONG_MAX ==> r == n
    ensures n > LONG_MAX ==> r == LONG_MAX
    ensures n < LONG_MIN ==> r == LONG_MIN
  {
    if n > LONG_MAX then LONG_MAX else if n < LONG_MIN then LONG_MIN else n
  }

  /** A numeric `dueDate`: below 10^12 it counts seconds and is multiplied by
      1000 (a `Long` product, wrapping on overflow), otherwise it is kept. */
  function ScaleDueDate(n: int): (r: Long)
    ensures LONG_MIN / 1000 < n < SECONDS_LIMIT ==> r == n * 1000
    ensures SECONDS_LIMIT <= n <= LONG_MAX ==> r == n
    ensures n > LONG_MAX ==> r == LONG_MAX
  {
    var v := SaturateLong(n);
    if v < SECONDS_LIMIT then WrapLong(v * 1000) else v
  }

  /** 1735000000 seconds become 1735000000000 milliseconds, while a value
      already in milliseconds is untouched. */
  lemma ScaleDueDateExamples()
    ensures ScaleDueDate(1735000000) == 1735000000000
    ensures ScaleDueDate(1735000000000) == 1735000000000
    ensures ScaleDueDate(0) == 0
  {
  }

  /** Scaling keeps the order of two values on the same side of the
      seconds limit: both are seconds or both are milliseconds. */
  lemma ScaleDueDateMonotone(m: int, n: int)
    requires 0 <= m <= n <= LONG_MAX
    requires n < SECONDS_LIMIT || m >= SECONDS_LIMIT
    ensures ScaleDueDate(m) <= ScaleDueDate(n)
  {
  }

  /** The text of a string `dueDate` to be parsed: trimmed, with one pair of
      surrounding double quotes removed; `None` when that is blank or
      "null" in any case. */
  function DueDateText(s: string): (r: Option<string>)
    ensures r.Some? ==> !IsBlank(r.value) && !EqualsIgnoreCase(r.value, "null")
    ensures r.Some? ==> r.value == RemoveSurrounding(Trim(s), "\"")
    ensures var t := RemoveSurrounding(Trim(s), "\"");
            r.None? <==> IsBlank(t) || EqualsIgnoreCase(t, "null")
  {
    var trimmed := RemoveSurrounding(Trim(s), "\"");
    if IsBlank(trimmed) || EqualsIgnoreCase(trimmed, "null") then None else Some(trimmed)
  }

  /** A quoted "null" in any case is no date. */
  lemma DueDateTextQuotedNull(d: string)
    requires EqualsIgnoreCase(d, "null")
    ensures DueDateText("\"" + d + "\"") == None
  {
    DueDateTextQuoted(d);
  }

  /** A date in double quotes reaches the date parser without its quotes,
      unless it is blank or "null". */
  lemma DueDateTextQuoted(d: string)
    ensures DueDateText("\"" + d + "\"") ==
              if IsBlank(d) || EqualsIgnoreCase(d, "null") then None else Some(d)
  {
    UnquoteWrapped(d);
  }

  /** Trimming and unquoting a quoted text gives the text back. */
  lemma UnquoteWrapped(d: string)
    ensures RemoveSurrounding(Trim("\"" + d + "\""), "\"") == d
  {
    var q := "\"" + d + "\"";
    TrimKeeps(q);
    assert q[..1] == "\"" && q[|q| - 1..] == "\"" && q[1..|q| - 1] == d;
  }

  /** A pair of quotes around nothing, or spaces only, is no date. */
  lemma DueDateTextBlank()
    ensures DueDateText("\"\"") == None
    ensures DueDateText(" ") == None
  {
    var e := "\"\"";
    assert TrimStart(e) == e;
    assert TrimEnd(e) == e;
    assert RemoveSurrounding(e, "\"") == "";
    assert IsBlank(" ");
  }

  /** `parseDueDate`: a string goes through DueDateText and then the date
      parser (a parse failure giving null), a number through ScaleDueDate,
      anything else (null, a missing key, a boolean, a list, an object)
      gives null. */
  function ParseDueDate(value: Option<Json>, parseDate: string -> Option<Long>): (r: Option<Long>)
    ensures value.Some? && value.value.JNumber? ==> r == Some(ScaleDueDate(value.value.n))
    ensures value.Some? && value.value.JString? ==>
              r == (match DueDateText(value.value.s) case None => None case Some(t) => parseDate(t))
    ensures !(value.Some? && (value.value.JNumber? || value.value.JString?)) ==> r == None
  {
    match value
    case Some(JString(s)) =>
      (match DueDateText(s)
       case None => None
       case Some(t) => parseDate(t))
    case Some(JNumber(n)) => Some(ScaleDueDate(n))
    case _ => None
  }

  /** The fields of a `ParsedTask` built from the decoded object: a string
      `title` or "新任务", a string `description` / `reasoning` or "", and the
      three parsed fields. */
  function TaskFromObject(obj: JsonObject, parseDate: string -> Option<Long>, newId: nat -> string, now: Long): (r: ParsedTask)
    ensures r.title == StringField(obj, "title").GetOr(DEFAULT_TITLE)
    ensures r.description == StringField(obj, "description").GetOr("")
    ensures r.reasoning == StringField(obj, "reasoning").GetOr("")
    ensures r.priority == ParsePriority(StringField(obj, "priority"))
    ensures r.dueDate == ParseDueDate(Field(obj, "dueDate"), parseDate)
    ensures r.subTasks == ParseSubTasks(Field(obj, "subTasks"), newId, now)
  {
    ParsedTask(
      StringField(obj, "title").GetOr(DEFAULT_TITLE),
      StringField(obj, "description").GetOr(""),
      ParsePriority(StringField(obj, "priority")),
      ParseDueDate(Field(obj, "dueDate"), parseDate),
      StringField(obj, "reasoning").GetOr(""),
      ParseSubTasks(Field(obj, "subTasks"), newId, now))
  }

  /** The defaults: with none of the six keys the task is "新任务", empty
      texts, MEDIUM, no date and no subtasks; a title that is not a string
      also gives the default. */
  lemma TaskFromObjectDefaults(obj: JsonObject, parseDate: string -> Option<Long>, newId: nat -> string, now: Long)
    ensures var keys := {"title", "description", "priority", "dueDate", "reasoning", "subTasks"};
            (forall k :: k in keys ==> k !in obj) ==>
              TaskFromObject(obj, parseDate, newId, now) == ParsedTask(DEFAULT_TITLE, "", MEDIUM, None, "", [])
    ensures "title" in obj && !obj["title"].JString? ==> TaskFromObject(obj, parseDate, newId, now).title == DEFAULT_TITLE
  {
  }

  /** `parseResponse`, with its exceptions as errors: extract, decode (Gson
      gives null for the empty text), and read the fields. */
  function ParseResponse(response: string, decode: string -> Option<JsonObject>,
                         parseDate: string -> Option<Long>, newId: nat -> string, now: Long): (r: Result<ParsedTask, ParseError>)
    ensures r.Failure? && r.error == NoJsonObject <==> ExtractJson(response).None?
    ensures r.Failure? && r.error == EmptyJson <==> ExtractJson(response) == Some([])
    ensures r.Success? ==>
              var j := ExtractJson(response);
              j.Some? && j.value != [] && j.value[0] == '{' && j.value[|j.value| - 1] == '}'
              && decode(j.value).Some?
              && r.value == TaskFromObject(decode(j.value).value, parseDate, newId, now)
    ensures r.Success? <==>
              var j := ExtractJson(response);
              j.Some? && j.value != [] && decode(j.value).Some?
    ensures r.Failure? ==> !r.error.CallFailed?
  {
    ExtractJsonCases(response);
    match ExtractJson(response)
    case None => Failure(NoJsonObject)
    case Some(text) =>
      if text == [] then Failure(EmptyJson)
      else
        match decode(text)
        case None => Failure(MalformedJson)
        case Some(obj) => Success(TaskFromObject(obj, parseDate, newId, now))
  }

  /** A reply that is one JSON object, possibly wrapped in text without
      braces, is decoded as a whole. */
  lemma ParseResponseWrapped(prefix: string, body: string, suffix: string,
                             decode: string -> Option<JsonObject>, parseDate: string -> Option<Long>,
                             newId: nat -> string, now: Long)
    requires '{' !in prefix && '}' !in suffix
    requires |body| >= 2 && body[0] == '{' && body[|body| - 1] == '}'
    requires decode(body).Some?
    ensures ParseResponse(prefix + body + suffix, decode, parseDate, newId, now)
            == Success(TaskFromObject(decode(body).value, parseDate, newId, now))
  {
    ExtractWrapped(prefix, body, suffix);
  }

  /** The extraction of such a reply is the object's text. */
  lemma ExtractWrapped(prefix: string, body: string, suffix: string)
    requires '{' !in prefix && '}' !in suffix
    requires |body| >= 2 && body[0] == '{' && body[|body| - 1] == '}'
    ensures ExtractJson(prefix + body + suffix) == Some(body)
  {
    var s := prefix + body + suffix;
    assert s == prefix + (body + suffix);
    IndexOfConcat(prefix, body + suffix, '{');
    LastIndexOfConcat(prefix + body, suffix, '}');
    assert s[|prefix|..|prefix| + |body|] == body;
  }

  /** The first '{' of `a + b`, when `a` has none, lies in `b`. */
  lemma {:induction false} IndexOfConcat(a: string, b: string, c: char)
    requires c !in a && b != [] && b[0] == c
    ensures IndexOf(a + b, c) == |a|
  {
    if a == [] {
      assert a + b == b;
    } else {
      assert (a + b)[1..] == a[1..] + b;
      IndexOfConcat(a[1..], b, c);
    }
  }

  /** The last '}' of `a + b`, when `b` has none, lies in `a`. */
  lemma {:induction false} LastIndexOfConcat(a: string, b: string, c: char)
    requires c !in b && a != [] && a[|a| - 1] == c
    ensures LastIndexOf(a + b, c) == |a| - 1
  {
    if b == [] {
      assert a + b == a;
    } else {
      var s := a + b;
      assert s[..|s| - 1] == a + b[..|b| - 1];
      assert s[|s| - 1] == b[|b| - 1];
      LastIndexOfConcat(a, b[..|b| - 1], c);
    }
  }

  /** `parseTask`: never throws; a failed call, and every exception of
      `parseResponse`, becomes a failure, and a success carries the parsed
      reply. */
  function ParseTask(reply: Result<string, string>, decode: string -> Option<JsonObject>,
                     parseDate: string -> Option<Long>, newId: nat -> string, now: Long): (r: Result<ParsedTask, ParseError>)
    ensures reply.Failure? ==> r == Failure(CallFailed(reply.error))
    ensures reply.Success? ==> r == ParseResponse(reply.value, decode, parseDate, newId, now)
    ensures r.Success? ==> reply.Success? && ExtractJson(reply.value).Some?
  {
    match reply
    case Failure(message) => Failure(CallFailed(message))
    case Success(response) => ParseResponse(response, decode, parseDate, newId, now)
  }

  /** `ParsedTask.toTodo`: a new, open task with the parsed fields; the
      reasoning is dropped. */
  function ParsedTaskToTodo(p: ParsedTask, id: string, now: Long): (t: Todo)
    ensures t.id == id && t.title == p.title && t.description == p.description
    ensures t.priority == p.priority && t.dueDate == p.dueDate && t.subTasks == p.subTasks
    ensures !t.isCompleted && t.completedAt == None && t.createdAt == now
    ensures CompletedAtConsistent(t)
  {
    Todo(id, p.title, p.description, false, p.priority, p.dueDate, p.subTasks, now, None)
  }
}
