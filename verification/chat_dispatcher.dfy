/** AIServiceImpl after the language model has answered: the reply is
    stripped of Markdown code fences, decoded as a JSON object (the decoder
    is a parameter), and the action it names is run against the stores and
    reports. */
module ChatDispatcher {
  import opened Nullable
  import opened Failures
  import opened JavaText
  import opened Entities
  import MaterialService
  import SaleRepository
  import opened ReportService

  // ---------------------------------------------------------------------
  // Cleaning the reply
  // ---------------------------------------------------------------------

  const JsonFence: string := "```json"
  const Fence: string := "```"

  /** replaceAll(fence + "\\s*", ""): scanning left to right, every
      occurrence of the fence is deleted together with the whitespace run
      after it; every other character is kept. The result is never longer
      than the input, and a first character that does not open a fence is
      kept in front. */
  function RemoveFence(s: string, fence: string): (r: string)
    requires |fence| > 0
    ensures |r| <= |s|
    ensures |s| > 0 && !(fence <= s) ==> |r| > 0 && r[0] == s[0]
    decreases |s|
  {
    if |s| == 0 then ""
    else if fence <= s then RemoveFence(SkipRegexSpace(s[|fence|..]), fence)
    else [s[0]] + RemoveFence(s[1..], fence)
  }

  /** The reply as handed to the JSON decoder: "```json" fences removed,
      then "```" fences, then trimmed: never longer than the reply, and
      neither starting nor ending with a character trim() strips. */
  function CleanReply(reply: string): (r: string)
    ensures |r| <= |reply|
    ensures |r| > 0 ==> !IsTrimmable(r[0]) && !IsTrimmable(r[|r| - 1])
  {
    Trim(RemoveFence(RemoveFence(reply, JsonFence), Fence))
  }

  /** No three backticks in a row anywhere in `s`. */
  predicate NoFence(s: string) {
    forall i :: 0 <= i && i + 2 < |s| ==> !(s[i] == '`' && s[i + 1] == '`' && s[i + 2] == '`')
  }

  /** A reply without backticks has no fence to remove. */
  lemma {:induction false} RemoveFenceKeepsPlainText(s: string, fence: string)
    requires |fence| > 0 && fence[0] == '`'
    requires forall i :: 0 <= i < |s| ==> s[i] != '`'
    ensures RemoveFence(s, fence) == s
    decreases |s|
  {
    if |s| > 0 {
      assert !(fence <= s) by { assert s[0] != fence[0]; }
      RemoveFenceKeepsPlainText(s[1..], fence);
    }
  }

  /** A reply without backticks is only trimmed. */
  lemma PlainReplyIsTrimmed(reply: string)
    requires forall i :: 0 <= i < |reply| ==> reply[i] != '`'
    ensures CleanReply(reply) == Trim(reply)
  {
    RemoveFenceKeepsPlainText(reply, JsonFence);
    RemoveFenceKeepsPlainText(reply, Fence);
  }

  /** A character that does not start a fence is kept, in front. */
  lemma KeptHead(t: string)
    requires |t| > 0 && !(Fence <= t)
    ensures RemoveFence(t, Fence) == [t[0]] + RemoveFence(t[1..], Fence)
  {
  }

  /** After the "```" pass no three backticks remain: a kept backtick is
      never followed by two more, since those three would have been a
      fence. */
  lemma {:induction false} RemoveFenceLeavesNoFence(s: string)
    ensures NoFence(RemoveFence(s, Fence))
    decreases |s|
  {
    if |s| == 0 {
    } else if Fence <= s {
      RemoveFenceLeavesNoFence(SkipRegexSpace(s[3..]));
    } else {
      var t := s[1..];
      var r' := RemoveFence(t, Fence);
      RemoveFenceLeavesNoFence(t);
      var r := [s[0]] + r';
      assert RemoveFence(s, Fence) == r;
      if s[0] == '`' && |r'| >= 2 {
        // t does not start with a fence, or s would.
        assert !(Fence <= t);
        KeptHead(t);
        if t[0] == '`' {
          var u := t[1..];
          assert |u| > 0;
          assert u[0] != '`';
          assert !(Fence <= u) by { assert u[0] != Fence[0]; }
          KeptHead(u);
          assert r'[1] == u[0];
        }
      }
      assert NoFence(r) by {
        forall i | 0 <= i && i + 2 < |r|
          ensures !(r[i] == '`' && r[i + 1] == '`' && r[i + 2] == '`')
        {
          if i > 0 {
            assert r[i] == r'[i - 1] && r[i + 1] == r'[i] && r[i + 2] == r'[i + 1];
          }
        }
      }
    }
  }

  /** A run without three backticks keeps that property in every infix. */
  lemma NoFenceInfix(s: string, lo: nat, hi: nat)
    requires lo <= hi <= |s| && NoFence(s)
    ensures NoFence(s[lo..hi])
  {
    var t := s[lo..hi];
    forall i | 0 <= i && i + 2 < |t|
      ensures !(t[i] == '`' && t[i + 1] == '`' && t[i + 2] == '`')
    {
      assert t[i] == s[lo + i] && t[i + 1] == s[lo + i + 1] && t[i + 2] == s[lo + i + 2];
    }
  }

  /** Whatever the model wrote, the cleaned reply holds no code fence. */
  lemma CleanReplyHasNoFence(reply: string)
    ensures NoFence(CleanReply(reply))
  {
    var s := RemoveFence(RemoveFence(reply, JsonFence), Fence);
    RemoveFenceLeavesNoFence(RemoveFence(reply, JsonFence));
    NoFenceInfix(s, TrimStart(s), TrimStop(s, TrimStart(s)));
  }

  // ---------------------------------------------------------------------
  // The decoded reply and the response
  // ---------------------------------------------------------------------

  /** What Jackson yields for the JSON scalars and objects a reply holds;
      a number is an integer. */
  datatype Json =
    | JNull
    | JBool(b: bool)
    | JInt(i: int)
    | JStr(s: string)
    | JObject(fields: map<string, Json>)

  /** The object ChatResponse.data carries. */
  datatype Data =
    | NoData
    | Materials(rows: map<int, Material>)
    | Summary(summary: SalesSummary)
    | Stock(report: StockReport)
    | TopItems(ranking: seq<SaleRepository.TopItem>)
    | Parameters(parameters: Option<map<string, Json>>)
    | Text(text: string)

  datatype ChatResponse = ChatResponse(
    message: Option<string>,
    action: Option<string>,
    data: Data,
    needsConfirmation: bool)

  /** What the dispatcher reads: the stores, the recorded sales, and the
      clock reading the report windows start from. */
  datatype Context = Context(
    materials: MaterialService.Store,
    items: map<int, FoodItem>,
    sales: seq<Sale>,
    clock: Clock)

  const Apology: string := "Sorry, hindi ko naintindihan yung request. Pwede mo bang ulitin?"

  /** The response to a reply the decoder rejects. */
  function ApologyResponse(): (r: ChatResponse)
    ensures r.message == Some(Apology) && r.action == Some("ERROR")
    ensures r.data == NoData && !r.needsConfirmation
  {
    ChatResponse(Some(Apology), Some("ERROR"), NoData, false)
  }

  /** `(String) map.get(key)`: null when absent or null, the text when a
      string, a ClassCastException otherwise. */
  function StringField(m: map<string, Json>, key: string): (r: Result<Option<string>>)
    ensures key !in m ==> r == Ok(None)
    ensures key in m && m[key].JStr? ==> r == Ok(Some(m[key].s))
    ensures r.Err? <==> key in m && !m[key].JNull? && !m[key].JStr?
    ensures r.Err? ==> r.error == ClassCast
  {
    if key !in m then Ok(None)
    else match m[key]
      case JNull => Ok(None)
      case JStr(s) => Ok(Some(s))
      case _ => Err(ClassCast)
  }

  /** `(String) map.getOrDefault(key, default)`: a key present with null
      gives null, not the default. */
  function StringParameter(m: map<string, Json>, key: string, default: string): (r: Result<Option<string>>)
    ensures key !in m ==> r == Ok(Some(default))
    ensures key in m ==> r == StringField(m, key)
  {
    if key !in m then Ok(Some(default)) else StringField(m, key)
  }

  /** The rendering of a nested object, which no number parser accepts. */
  const ObjectRendering: string := "{...}"

  /** `map.getOrDefault(key, default).toString()`. */
  function TextParameter(m: map<string, Json>, key: string, default: string): (r: Result<string>)
    ensures key !in m ==> r == Ok(default)
    ensures r.Err? <==> key in m && m[key].JNull?
    ensures r.Err? ==> r.error == NullReference
    ensures key in m && m[key].JStr? ==> r == Ok(m[key].s)
    ensures key in m && m[key].JInt? ==> r == Ok(IntToString(m[key].i))
  {
    if key !in m then Ok(default)
    else match m[key]
      case JNull => Err(NullReference)
      case JBool(b) => Ok(if b then "true" else "false")
      case JInt(i) => Ok(IntToString(i))
      case JStr(s) => Ok(s)
      case JObject(_) => Ok(ObjectRendering)
  }

  // ---------------------------------------------------------------------
  // executeAction
  // ---------------------------------------------------------------------

  /** The actions with a case of their own. */
  predicate KnownAction(a: string) {
    a == "VIEW_MATERIALS" || a == "VIEW_PROFIT" || a == "VIEW_STOCK" || a == "VIEW_TOP_ITEMS" || a == "ADD_MATERIAL"
  }

  /** VIEW_PROFIT: the sales summary for the period, "today" by default. */
  function ViewProfit(ctx: Context, parameters: map<string, Json>): (r: Result<Data>)
    ensures "period" !in parameters ==> r == Lift(GetSalesSummary(ctx.sales, ctx.clock, "today"))
    ensures "period" in parameters && parameters["period"].JStr? ==>
              r == Lift(GetSalesSummary(ctx.sales, ctx.clock, parameters["period"].s))
    ensures "period" in parameters && parameters["period"].JNull? ==> r == Err(NullReference)
    ensures "period" in parameters && !parameters["period"].JNull? && !parameters["period"].JStr? ==>
              r == Err(ClassCast)
  {
    match StringParameter(parameters, "period", "today")
    case Err(e) => Err(e)
    case Ok(None) => Err(NullReference)
    case Ok(Some(period)) => Lift(GetSalesSummary(ctx.sales, ctx.clock, period))
  }

  function Lift(r: Result<SalesSummary>): (d: Result<Data>)
    ensures d.Ok? <==> r.Ok?
    ensures d.Ok? ==> d.value == Summary(r.value)
    ensures d.Err? ==> d.error == r.error
  {
    match r
    case Ok(s) => Ok(Summary(s))
    case Err(e) => Err(e)
  }

  /** VIEW_STOCK: the stock report at the threshold the parameter's text
      denotes, "10" by default. */
  function ViewStock(ctx: Context, parameters: map<string, Json>): (r: Result<Data>)
    ensures r.Ok? ==> r.value.Stock? && r.value.report.materials == ctx.materials.rows
    ensures r.Ok? <==> TextParameter(parameters, "threshold", "10").Ok? &&
                       ParseDecimal(TextParameter(parameters, "threshold", "10").value).Some?
    ensures var text := TextParameter(parameters, "threshold", "10");
            && (text.Err? ==> r == Err(NullReference))
            && (text.Ok? && ParseDecimal(text.value).None? ==> r == Err(DecimalFormat(text.value)))
            && (text.Ok? && ParseDecimal(text.value).Some? ==>
                  r == Ok(Stock(GetMaterialsStockReport(ctx.materials, ParseDecimal(text.value)))))
  {
    match TextParameter(parameters, "threshold", "10")
    case Err(e) => Err(e)
    case Ok(text) =>
      match ParseDecimal(text)
      case None => Err(DecimalFormat(text))
      case Some(t) => Ok(Stock(GetMaterialsStockReport(ctx.materials, Some(t))))
  }

  /** VIEW_TOP_ITEMS: the ranking for the period ("today" by default), cut
      at the parsed limit ("5" by default). The period's type is checked
      first, the limit parsed next, the period itself used last. */
  function ViewTopItems(ctx: Context, parameters: map<string, Json>): (r: Result<Data>)
    ensures StringParameter(parameters, "period", "today").Err? ==> r == Err(ClassCast)
    ensures r.Ok? ==> r.value.TopItems?
    ensures var period := StringParameter(parameters, "period", "today");
            var text := TextParameter(parameters, "limit", "5");
            && (period.Ok? && text.Err? ==> r == Err(NullReference))
            && (period.Ok? && text.Ok? && ParseInt(text.value).None? ==> r == Err(NumberFormat(text.value)))
            && (period.Ok? && text.Ok? && ParseInt(text.value).Some? && period.value.None? ==> r == Err(NullReference))
            && (period.Ok? && period.value.Some? && text.Ok? && ParseInt(text.value).Some? ==>
                  var rows := GetTopSellingItems(ctx.sales, ctx.items, ctx.clock, period.value.value, ParseInt(text.value).value);
                  && (rows.Err? ==> r == Err(rows.error))
                  && (rows.Ok? ==> r == Ok(TopItems(rows.value))))
  {
    match StringParameter(parameters, "period", "today")
    case Err(e) => Err(e)
    case Ok(period) =>
      match TextParameter(parameters, "limit", "5")
      case Err(e) => Err(e)
      case Ok(text) =>
        match ParseInt(text)
        case None => Err(NumberFormat(text))
        case Some(limit) =>
          if period.None? then Err(NullReference)
          else match GetTopSellingItems(ctx.sales, ctx.items, ctx.clock, period.value, limit)
            case Err(e) => Err(e)
            case Ok(rows) => Ok(TopItems(rows))
  }

  /** The body of the try block: the switch on the action. A null action
      makes the switch itself throw; a null parameter map makes every
      action that reads a parameter throw. */
  function Route(ctx: Context, action: Option<string>, parameters: Option<map<string, Json>>): (r: Result<Data>)
    ensures action.None? ==> r == Err(NullReference)
    ensures action == Some("VIEW_MATERIALS") ==> r == Ok(Materials(ctx.materials.rows))
    ensures action == Some("ADD_MATERIAL") ==> r == Ok(Parameters(parameters))
    ensures action.Some? && !KnownAction(action.value) ==>
              r == Ok(Text("Action not yet implemented: " + action.value))
    ensures action.Some? && action.value in {"VIEW_PROFIT", "VIEW_STOCK", "VIEW_TOP_ITEMS"} && parameters.None? ==>
              r == Err(NullReference)
    ensures action == Some("VIEW_PROFIT") && parameters.Some? ==> r == ViewProfit(ctx, parameters.value)
    ensures action == Some("VIEW_STOCK") && parameters.Some? ==> r == ViewStock(ctx, parameters.value)
    ensures action == Some("VIEW_TOP_ITEMS") && parameters.Some? ==> r == ViewTopItems(ctx, parameters.value)
  {
    match action
    case None => Err(NullReference)
    case Some(a) =>
      if a == "VIEW_MATERIALS" then Ok(Materials(ctx.materials.rows))
      else if a == "VIEW_PROFIT" then
        if parameters.None? then Err(NullReference) else ViewProfit(ctx, parameters.value)
      else if a == "VIEW_STOCK" then
        if parameters.None? then Err(NullReference) else ViewStock(ctx, parameters.value)
      else if a == "VIEW_TOP_ITEMS" then
        if parameters.None? then Err(NullReference) else ViewTopItems(ctx, parameters.value)
      else if a == "ADD_MATERIAL" then Ok(Parameters(parameters))
      else Ok(Text("Action not yet implemented: " + a))
  }

  /** executeAction: an exception inside an action becomes the text
      "Error: " followed by its message; nothing escapes. */
  function ExecuteAction(ctx: Context, action: Option<string>, parameters: Option<map<string, Json>>): (d: Data)
    ensures Route(ctx, action, parameters).Ok? ==> d == Route(ctx, action, parameters).value
    ensures Route(ctx, action, parameters).Err? ==>
              d == Text("Error: " + Message(Route(ctx, action, parameters).error))
  {
    match Route(ctx, action, parameters)
    case Ok(d) => d
    case Err(e) => Text("Error: " + Message(e))
  }

  // ---------------------------------------------------------------------
  // parseAndExecute
  // ---------------------------------------------------------------------

  /** `(Map) getOrDefault("parameters", new HashMap())`. */
  function ParametersField(m: map<string, Json>): (r: Result<Option<map<string, Json>>>)
    ensures "parameters" !in m ==> r == Ok(Some(map[]))
    ensures r.Err? <==> "parameters" in m && !m["parameters"].JNull? && !m["parameters"].JObject?
  {
    if "parameters" !in m then Ok(Some(map[]))
    else match m["parameters"]
      case JNull => Ok(None)
      case JObject(p) => Ok(Some(p))
      case _ => Err(ClassCast)
  }

  /** `(Boolean) getOrDefault("needsMoreInfo", false)`, unboxed. */
  function NeedsMoreInfoField(m: map<string, Json>): (r: Result<bool>)
    ensures "needsMoreInfo" !in m ==> r == Ok(false)
    ensures r.Ok? <==> "needsMoreInfo" !in m || m["needsMoreInfo"].JBool?
    ensures "needsMoreInfo" in m && m["needsMoreInfo"].JNull? ==> r == Err(NullReference)
  {
    if "needsMoreInfo" !in m then Ok(false)
    else match m["needsMoreInfo"]
      case JNull => Err(NullReference)
      case JBool(b) => Ok(b)
      case _ => Err(ClassCast)
  }

  /** The fields of a decoded object, read in the order of the source:
      action, message, parameters, needsMoreInfo. */
  datatype Reply = Reply(
    action: Option<string>,
    message: Option<string>,
    parameters: Option<map<string, Json>>,
    needsMoreInfo: bool)

  function ReadReply(m: map<string, Json>): (r: Result<Reply>)
    ensures r.Ok? <==> StringField(m, "action").Ok? && StringField(m, "message").Ok? &&
                       ParametersField(m).Ok? && NeedsMoreInfoField(m).Ok?
    ensures r.Ok? ==> r.value == Reply(StringField(m, "action").value, StringField(m, "message").value,
                                       ParametersField(m).value, NeedsMoreInfoField(m).value)
  {
    match StringField(m, "action")
    case Err(e) => Err(e)
    case Ok(action) =>
      match StringField(m, "message")
      case Err(e) => Err(e)
      case Ok(message) =>
        match ParametersField(m)
        case Err(e) => Err(e)
        case Ok(parameters) =>
          match NeedsMoreInfoField(m)
          case Err(e) => Err(e)
          case Ok(more) => Ok(Reply(action, message, parameters, more))
  }

  /** parseAndExecute. Only a decoding failure is caught here, and answered
      with the apology; a scalar where an object belongs is one. A reply
      that decodes to null, or a field of the wrong type, throws on. */
  function ParseAndExecute(ctx: Context, aiResponse: string, decode: string -> Option<Json>)
    : (r: Result<ChatResponse>)
    ensures decode(CleanReply(aiResponse)).None? ==> r == Ok(ApologyResponse())
    ensures decode(CleanReply(aiResponse)) == Some(JNull) ==> r == Err(NullReference)
    ensures decode(CleanReply(aiResponse)).Some? && decode(CleanReply(aiResponse)).value.JObject? ==>
              var read := ReadReply(decode(CleanReply(aiResponse)).value.fields);
              && (read.Err? ==> r == Err(read.error))
              && (read.Ok? ==>
                    var reply := read.value;
                    && r.Ok?
                    && r.value.message == reply.message && r.value.action == reply.action
                    && r.value.needsConfirmation == reply.needsMoreInfo
                    && (reply.needsMoreInfo ==> r.value.data == NoData)
                    && (!reply.needsMoreInfo ==> r.value.data == ExecuteAction(ctx, reply.action, reply.parameters)))
    ensures decode(CleanReply(aiResponse)).Some? &&
            !decode(CleanReply(aiResponse)).value.JObject? && !decode(CleanReply(aiResponse)).value.JNull? ==>
              r == Ok(ApologyResponse())
  {
    match decode(CleanReply(aiResponse))
    case None => Ok(ApologyResponse())
    case Some(JNull) => Err(NullReference)
    case Some(JObject(m)) =>
      (match ReadReply(m)
       case Err(e) => Err(e)
       case Ok(reply) =>
         if reply.needsMoreInfo then Ok(ChatResponse(reply.message, reply.action, NoData, true))
         else Ok(ChatResponse(reply.message, reply.action, ExecuteAction(ctx, reply.action, reply.parameters), false)))
    case Some(_) => Ok(ApologyResponse())
  }

  // ---------------------------------------------------------------------
  // Properties of the routing
  // ---------------------------------------------------------------------

  /** A reply asking for more information runs no action: its message and
      action come back with no data and the confirmation flag set. */
  lemma NeedsMoreInfoShortCircuits(ctx: Context, aiResponse: string, decode: string -> Option<Json>,
                                   m: map<string, Json>, action: string, message: string)
    requires decode(CleanReply(aiResponse)) == Some(JObject(m))
    requires m == map["action" := JStr(action), "message" := JStr(message), "needsMoreInfo" := JBool(true)]
    ensures ParseAndExecute(ctx, aiResponse, decode) == Ok(ChatResponse(Some(message), Some(action), NoData, true))
  {
    MoreInfoReply(m, action, message);
  }

  /** The three fields of a reply that asks for more information are read
      as given, with an empty parameter map. */
  lemma MoreInfoReply(m: map<string, Json>, action: string, message: string)
    requires m == map["action" := JStr(action), "message" := JStr(message), "needsMoreInfo" := JBool(true)]
    ensures ReadReply(m) == Ok(Reply(Some(action), Some(message), Some(map[]), true))
  {
    assert "parameters" !in m;
  }

  /** A reply with only an action runs it with an empty parameter map. */
  lemma MissingFieldsDefault(ctx: Context, aiResponse: string, decode: string -> Option<Json>, action: string)
    requires decode(CleanReply(aiResponse)) == Some(JObject(map["action" := JStr(action)]))
    ensures ParseAndExecute(ctx, aiResponse, decode) ==
            Ok(ChatResponse(None, Some(action), ExecuteAction(ctx, Some(action), Some(map[])), false))
  {
    var m := map["action" := JStr(action)];
    assert ReadReply(m) == Ok(Reply(Some(action), None, Some(map[]), false));
  }

  /** VIEW_PROFIT without a period reports on today. */
  lemma ProfitDefaultsToToday(ctx: Context)
    ensures ExecuteAction(ctx, Some("VIEW_PROFIT"), Some(map[])) ==
            Summary(GetSalesSummary(ctx.sales, ctx.clock, "today").value)
  {
    assert Lower("today") == "today";
  }

  /** VIEW_STOCK without a threshold reports at 10. */
  lemma StockDefaultsToTen(ctx: Context)
    ensures ExecuteAction(ctx, Some("VIEW_STOCK"), Some(map[])) ==
            Stock(GetMaterialsStockReport(ctx.materials, Some(10.0)))
  {
    TenRendering();
    ParseDecimalOfToString(10);
  }

  lemma TenRendering()
    ensures IntToString(10) == "10" && IntToString(5) == "5"
  {
    assert NatToString(1) == "1";
    assert NatToString(10) == NatToString(1) + [DigitChar(0)];
  }

  /** VIEW_TOP_ITEMS without parameters gives at most five of today's rows. */
  lemma TopItemsDefaults(ctx: Context)
    ensures var rows := SaleRepository.FindTopSellingItems(ctx.sales, ctx.clock.startOfToday, ctx.clock.now, ctx.items);
            ExecuteAction(ctx, Some("VIEW_TOP_ITEMS"), Some(map[])) ==
            TopItems(rows[..if |rows| < 5 then |rows| else 5])
  {
    var rows := SaleRepository.FindTopSellingItems(ctx.sales, ctx.clock.startOfToday, ctx.clock.now, ctx.items);
    var none: map<string, Json> := map[];
    TenRendering();
    ParseIntOfToString(5);
    assert ParseInt("5") == Some(5);
    assert Lower("today") == "today";
    assert DateRange(ctx.clock, "today") == Ok((ctx.clock.startOfToday, ctx.clock.now));
    assert GetTopSellingItems(ctx.sales, ctx.items, ctx.clock, "today", 5) == Ok(rows[..if |rows| < 5 then |rows| else 5]);
    assert ViewTopItems(ctx, none) == Ok(TopItems(rows[..if |rows| < 5 then |rows| else 5]));
  }

  /** An unknown period inside VIEW_PROFIT is reported, not thrown. */
  lemma BadPeriodIsReported(ctx: Context)
    ensures ExecuteAction(ctx, Some("VIEW_PROFIT"), Some(map["period" := JStr("decade")])) ==
            Text("Error: " + Message(InvalidPeriod))
  {
    var m := map["period" := JStr("decade")];
    assert Lower("decade") == "decade";
    assert GetSalesSummary(ctx.sales, ctx.clock, "decade") == Err(InvalidPeriod);
    assert StringParameter(m, "period", "today") == Ok(Some("decade"));
    assert ViewProfit(ctx, m) == Err(InvalidPeriod);
    assert Route(ctx, Some("VIEW_PROFIT"), Some(m)) == Err(InvalidPeriod);
  }

  /** The advertised RECORD_SALE has no case of its own. */
  lemma RecordSaleNotImplemented(ctx: Context, parameters: Option<map<string, Json>>)
    ensures ExecuteAction(ctx, Some("RECORD_SALE"), parameters) == Text("Action not yet implemented: RECORD_SALE")
  {
  }

  /** A fenced reply comes out as the bare object text. */
  lemma FencedReplyExample()
    ensures CleanReply("```json\n{}\n```") == "{}"
  {
    var reply := "```json\n{}\n```";
    var a := "{}\n```";
    assert reply == JsonFence + "\n" + a;
    assert a[0] == '{';
    JsonFencePass(a);
    FencePass();
    TrimPass();
    assert CleanReply(reply) == Trim(RemoveFence(RemoveFence(reply, JsonFence), Fence));
  }

  lemma TrimPass()
    ensures Trim("{}\n") == "{}"
  {
  }

  /** A leading "```json" fence and newline go; a short rest stays. */
  lemma JsonFencePass(a: string)
    requires 0 < |a| < |JsonFence| && !IsRegexSpace(a[0])
    ensures RemoveFence(JsonFence + "\n" + a, JsonFence) == a
  {
    assert JsonFence + "\n" + a == JsonFence + ("\n" + a);
    FenceDropped(JsonFence, "\n" + a);
    assert ("\n" + a)[1..] == a;
    ShortTextKept(a, JsonFence);
  }

  /** A fence at the front goes, with the whitespace after it. */
  lemma FenceDropped(fence: string, rest: string)
    requires |fence| > 0
    ensures RemoveFence(fence + rest, fence) == RemoveFence(SkipRegexSpace(rest), fence)
  {
    assert fence <= fence + rest;
    assert (fence + rest)[|fence|..] == rest;
  }

  lemma FencePass()
    ensures RemoveFence("{}\n```", Fence) == "{}\n"
  {
    var a := "{}\n```";
    var b := "}\n```";
    var c := "\n```";
    assert a[1..] == b && b[1..] == c && c[1..] == Fence;
    assert !(Fence <= a) by { assert a[0] != Fence[0]; }
    assert !(Fence <= b) by { assert b[0] != Fence[0]; }
    assert !(Fence <= c) by { assert c[0] != Fence[0]; }
    KeptHead(a);
    KeptHead(b);
    KeptHead(c);
    LoneFence();
  }

  /** A fence alone is removed entirely. */
  lemma LoneFence()
    ensures RemoveFence(Fence, Fence) == ""
  {
    FenceDropped(Fence, "");
    assert Fence + "" == Fence;
  }

  /** Text shorter than the fence is kept as it is. */
  lemma {:induction false} ShortTextKept(s: string, fence: string)
    requires |s| < |fence|
    ensures RemoveFence(s, fence) == s
    decreases |s|
  {
    if |s| > 0 {
      ShortTextKept(s[1..], fence);
    }
  }
}
