/** The guarded pipeline around the language model in the clinic's
    assistant endpoint (`src/app/api/aiQuery/route.ts`): the fallback
    collection analysis, the fallback query plan, the collection allow-list,
    the limit clamp and the dispatch of each operation. The model's replies,
    the database and the final answer text are inputs. */
module AiQuery {

  import opened Wrappers

  /** The collections an operation may read. */
  const AllowedCollections: seq<string> := ["labworks", "billings", "appointments"]

  /** The analysis used when the model's analysis is not valid JSON. */
  const FallbackCollections: seq<string> := ["appointments", "labworks", "billings"]

  const DefaultLimit: int := 5
  const MaxLimit: int := 10

  const NoAnswerText :=
    "I analyzed your query but couldn't generate a specific response. Please try rephrasing your question."

  /** A query or an aggregation stage, kept as the model wrote it. */
  type Clause = string

  /** One document as the database returns it. */
  type Doc = string

  /** One planned operation; absent members are `None`. A limit of 0 is
      as good as absent. */
  datatype Operation = Operation(
    collection: string,
    query: Option<Clause>,
    sort: Option<seq<(string, int)>>,
    limit: Option<int>,
    aggregation: Option<seq<Clause>>)

  datatype Analysis = Analysis(neededCollections: Option<seq<string>>, operationType: string)

  /** The analysis reply: the call failed, gave no text, or gave text that
      does or does not parse. */
  datatype AnalysisReply =
    | AnalysisCallFailed(error: string)
    | AnalysisEmpty
    | AnalysisUnparseable
    | AnalysisParsed(analysis: Analysis)

  /** The plan reply; an empty reply reads as `{}`, a plan without operations. */
  datatype PlanReply =
    | PlanCallFailed(error: string)
    | PlanUnparseable
    | PlanParsed(operations: Option<seq<Operation>>)

  /** The request body. */
  datatype Body = Unreadable(error: string) | Body(message: Option<string>)

  /** What the database does with one operation; an error becomes no documents. */
  datatype Database = Database(
    aggregate: (string, seq<Clause>) -> Result<seq<Doc>, string>,
    find: (string, Clause, Option<seq<(string, int)>>, int) -> Result<seq<Doc>, string>)

  datatype Reply =
    | MissingMessage
    | Failed(details: string)
    | Answer(response: string, collectionsUsed: seq<string>, operations: seq<Operation>, results: map<string, seq<Doc>>)

  /** HTTP status of a reply. */
  function StatusOf(r: Reply): (c: nat)
    ensures r.MissingMessage? <==> c == 400
    ensures r.Failed? <==> c == 500
    ensures r.Answer? <==> c == 200
  {
    match r
    case MissingMessage => 400
    case Failed(_) => 500
    case Answer(_, _, _, _) => 200
  }

  /** The analysis after the fallbacks: all three collections when the
      reply does not parse, and "appointments" when it names none. */
  function AnalysisOf(reply: AnalysisReply): (a: Analysis)
    requires reply.AnalysisUnparseable? || reply.AnalysisParsed?
    ensures a.neededCollections.Some? && a.neededCollections.value != []
    ensures reply.AnalysisUnparseable? ==> a == Analysis(Some(FallbackCollections), "query")
    ensures reply.AnalysisParsed? ==>
      var given := reply.analysis.neededCollections;
      && a.operationType == reply.analysis.operationType
      && a.neededCollections.value == (if given.None? || given.value == [] then ["appointments"] else given.value)
  {
    var a := if reply.AnalysisUnparseable? then Analysis(Some(FallbackCollections), "query") else reply.analysis;
    if a.neededCollections.None? || a.neededCollections.value == [] then a.(neededCollections := Some(["appointments"]))
    else a
  }

  /** One operation per collection with the given sort and limit 5. */
  function OperationsFor(collections: seq<string>, sort: Option<seq<(string, int)>>): (ops: seq<Operation>)
    ensures |ops| == |collections|
    ensures forall i :: 0 <= i < |collections| ==>
      ops[i] == Operation(collections[i], Some("{}"), sort, Some(DefaultLimit), None)
  {
    if collections == [] then []
    else [Operation(collections[0], Some("{}"), sort, Some(DefaultLimit), None)] + OperationsFor(collections[1..], sort)
  }

  /** The operations that run: an unparseable plan becomes one query per
      collection, newest first; a plan without operations becomes one query
      per collection without a sort. */
  function PlanOf(reply: PlanReply, collections: seq<string>): (ops: seq<Operation>)
    requires !reply.PlanCallFailed?
    ensures reply.PlanUnparseable? ==> ops == OperationsFor(collections, Some([("date", -1)]))
    ensures reply.PlanParsed? && (reply.operations.None? || reply.operations.value == []) ==>
      ops == OperationsFor(collections, None)
    ensures reply.PlanParsed? && reply.operations.Some? && reply.operations.value != [] ==>
      ops == reply.operations.value
    ensures collections != [] ==> ops != []
  {
    match reply
    case PlanUnparseable => OperationsFor(collections, Some([("date", -1)]))
    case PlanParsed(given) =>
      if given.None? || given.value == [] then OperationsFor(collections, None) else given.value
  }

  /** The limit an operation runs with: a missing or zero limit becomes 5,
      and no limit exceeds 10. */
  function EffectiveLimit(limit: Option<int>): (l: int)
    ensures l <= MaxLimit && l != 0
    ensures limit.None? || limit.value == 0 ==> l == DefaultLimit
    ensures limit.Some? && limit.value != 0 && limit.value <= MaxLimit ==> l == limit.value
    ensures limit.Some? && limit.value > MaxLimit ==> l == MaxLimit
  {
    var asked := if limit.None? || limit.value == 0 then DefaultLimit else limit.value;
    if asked < MaxLimit then asked else MaxLimit
  }

  /** `executeQuery`: an aggregation wins over the query, sort and limit,
      and any database error yields no documents. */
  function Execute(db: Database, op: Operation): (docs: seq<Doc>)
    ensures op.aggregation.Some? ==>
      docs == (if db.aggregate(op.collection, op.aggregation.value).Success?
               then db.aggregate(op.collection, op.aggregation.value).value else [])
    ensures op.aggregation.None? ==>
      var q := op.query.GetOr("{}");
      var lim := EffectiveLimit(op.limit);
      docs == (if db.find(op.collection, q, op.sort, lim).Success?
               then db.find(op.collection, q, op.sort, lim).value else [])
  {
    var outcome :=
      if op.aggregation.Some? then db.aggregate(op.collection, op.aggregation.value)
      else db.find(op.collection, op.query.GetOr("{}"), op.sort, EffectiveLimit(op.limit));
    if outcome.Success? then outcome.value else []
  }

  /** Index of the last operation on `c`, if any. */
  predicate LastOn(ops: seq<Operation>, c: string, i: int) {
    0 <= i < |ops| && ops[i].collection == c && forall j :: i < j < |ops| ==> ops[j].collection != c
  }

  /** Runs the operations in order, skipping any outside the allow-list; a
      later operation on a collection replaces the earlier result. */
  function RunAll(db: Database, ops: seq<Operation>): (results: map<string, seq<Doc>>)
    ensures forall c :: c in results ==> c in AllowedCollections
    ensures forall c :: c in results <==> c in AllowedCollections && exists i :: 0 <= i < |ops| && ops[i].collection == c
    ensures forall c, i :: c in AllowedCollections && LastOn(ops, c, i) ==> c in results && results[c] == Execute(db, ops[i])
  {
    if ops == [] then map[]
    else
      var init := ops[..|ops| - 1];
      var last := ops[|ops| - 1];
      var before := RunAll(db, init);
      assert forall i :: 0 <= i < |init| ==> init[i] == ops[i];
      assert forall c, i :: c != last.collection && LastOn(ops, c, i) ==> LastOn(init, c, i);
      if last.collection in AllowedCollections then before[last.collection := Execute(db, last)] else before
  }

  /** The request carries a non-empty message. */
  predicate Asked(body: Body) {
    body.Body? && body.message.Some? && body.message.value != ""
  }

  /** The analysis call gave text, parseable or not. */
  predicate Analysed(reply: AnalysisReply) {
    reply.AnalysisUnparseable? || reply.AnalysisParsed?
  }

  /** The endpoint. `respond` stands for the final model call (its text,
      empty when it gives none). */
  function Handle(body: Body, connect: Result<(), string>, analysisReply: AnalysisReply,
                  planReply: PlanReply, db: Database,
                  respond: map<string, seq<Doc>> -> Result<string, string>): (r: Reply)
    // a missing or empty message is refused before anything else
    ensures body.Body? && (body.message.None? || body.message.value == "") <==> r == MissingMessage
    // an unreadable body, a failed connection or model call, or an empty
    // analysis, is a server error carrying that failure's message
    ensures body.Unreadable? ==> r == Failed(body.error)
    ensures Asked(body) && connect.Failure? ==> r == Failed(connect.error)
    ensures Asked(body) && connect.Success? && analysisReply.AnalysisCallFailed? ==>
      r == Failed(analysisReply.error)
    ensures Asked(body) && connect.Success? && analysisReply.AnalysisEmpty? ==>
      r == Failed("No analysis generated")
    ensures Asked(body) && connect.Success? && Analysed(analysisReply) && planReply.PlanCallFailed? ==>
      r == Failed(planReply.error)
    // once the plan is there, the operations run and the final call decides
    ensures Asked(body) && connect.Success? && Analysed(analysisReply) && !planReply.PlanCallFailed? ==>
      var results := RunAll(db, PlanOf(planReply, AnalysisOf(analysisReply).neededCollections.value));
      && (respond(results).Failure? ==> r == Failed(respond(results).error))
      && (respond(results).Success? ==>
            r.Answer? && r.response == if respond(results).value != "" then respond(results).value else NoAnswerText)
    ensures r.Answer? ==>
      && Analysed(analysisReply)
      && !planReply.PlanCallFailed?
      && r.collectionsUsed == AnalysisOf(analysisReply).neededCollections.value
      && r.collectionsUsed != [] && r.operations != []
      && r.operations == PlanOf(planReply, r.collectionsUsed)
      && r.results == RunAll(db, r.operations)
      && respond(r.results).Success?
      && (respond(r.results).value != "" ==> r.response == respond(r.results).value)
      && r.response != ""
  {
    match body
    case Unreadable(e) => Failed(e)
    case Body(message) =>
      if message.None? || message.value == "" then MissingMessage
      else if connect.Failure? then Failed(connect.error)
      else
        match analysisReply
        case AnalysisCallFailed(e) => Failed(e)
        case AnalysisEmpty => Failed("No analysis generated")
        case _ =>
          var collections := AnalysisOf(analysisReply).neededCollections.value;
          if planReply.PlanCallFailed? then Failed(planReply.error)
          else
            var ops := PlanOf(planReply, collections);
            var results := RunAll(db, ops);
            match respond(results)
            case Failure(e) => Failed(e)
            case Success(text) =>
              Answer(if text != "" then text else NoAnswerText, collections, ops, results)
  }
}
