/**
 * The chat route's `POST` handler: pick the last message, ask the classifier
 * whether it is a question, on "yes" retrieve at most five chunks of the
 * requested file and join their texts into the context, and prepend the
 * system prompt to the conversation for the generation call.
 *
 * The replies of the external services are parameters: the classifier's
 * `choices`, the collection `ranked` by similarity to the embedded query, and
 * the prompt template `systemContent` that turns a context into the system
 * prompt's text.
 */
module ChatRoute {
  import opened Wrappers
  import opened Text
  import opened Vectorization

  /** A chat message as it arrives in the request body. */
  datatype Message = Message(role: string, content: string)

  /** One classifier choice; its `message.content` may be null. */
  datatype Choice = Choice(content: Option<string>)

  /** The search the handler issues: query text to embed, `fileId` filter, result limit, and what came back. */
  datatype Search = Search(query: string, filter: string, limit: nat, results: seq<AstraDoc>)

  /**
   * What one request does: the message list of the classifier call (its second
   * entry is `undefined` when `messages` is empty), the search when one was
   * made, the context, and the message list of the generation call.
   */
  datatype Reply = Reply(gateMessages: seq<Option<Message>>, search: Option<Search>, context: string,
                         generation: seq<Message>)

  /** The request fails: `.content` read from the `undefined` last message. */
  datatype ChatError = LastMessageUndefined

  /** The number of chunks retrieved per question. */
  const SearchLimit: nat := 5

  /** The classifier's affirmative answer, compared after lower-casing. */
  const Affirmative: string := "yes"

  /** `messages[messages.length - 1]`: `undefined` for an empty list. */
  function LastUserMessage(messages: seq<Message>): Option<Message>
  {
    if |messages| == 0 then None else Some(messages[|messages| - 1])
  }

  /** `choices.pop()?.message.content?.toLowerCase() === "yes"`. */
  predicate GateSaysYes(choices: seq<Choice>)
  {
    |choices| > 0 && choices[|choices| - 1].content.Some? &&
    ToLower(choices[|choices| - 1].content.value) == Affirmative
  }

  /** The records of `ranked` whose `fileId` equals `fileId`, in ranked order. */
  function Matching(ranked: seq<AstraDoc>, fileId: string): (found: seq<AstraDoc>)
    ensures forall d :: d in found <==> d in ranked && d.fileId == fileId
    ensures |found| <= |ranked|
  {
    if ranked == [] then []
    else if ranked[0].fileId == fileId then [ranked[0]] + Matching(ranked[1..], fileId)
    else Matching(ranked[1..], fileId)
  }

  /**
   * The filter keeps the ranking's order: filtering a concatenation is the
   * concatenation of the filtered parts.
   */
  lemma {:induction false} MatchingOrder(a: seq<AstraDoc>, b: seq<AstraDoc>, fileId: string)
    ensures Matching(a + b, fileId) == Matching(a, fileId) + Matching(b, fileId)
    decreases |a|
  {
    if a == [] {
      assert a + b == b;
    } else {
      var ab := a + b;
      assert ab[0] == a[0] && ab[1..] == a[1..] + b;
      MatchingOrder(a[1..], b, fileId);
    }
  }

  /** A single record is kept exactly when it belongs to the file. */
  lemma MatchingOne(d: AstraDoc, fileId: string)
    ensures Matching([d], fileId) == if d.fileId == fileId then [d] else []
  {
    assert [d][1..] == [];
  }

  /**
   * `collection.find({fileId}, {sort: {$vector}, limit})`: the best `limit`
   * records of the file, `ranked` being the whole collection ordered by
   * similarity to the query vector.
   */
  function Find(ranked: seq<AstraDoc>, fileId: string, limit: nat): (found: seq<AstraDoc>)
    ensures |found| <= limit
    ensures forall d :: d in found ==> d.fileId == fileId && d in ranked
    ensures |found| == if |Matching(ranked, fileId)| < limit then |Matching(ranked, fileId)| else limit
    ensures found == Matching(ranked, fileId)[..|found|]
  {
    var matching := Matching(ranked, fileId);
    if |matching| <= limit then matching else matching[..limit]
  }

  /**
   * The `POST` handler after the request body is parsed.
   */
  function Post(messages: seq<Message>, fileId: string, questionCheckPrompt: string,
                choices: seq<Choice>, ranked: seq<AstraDoc>, systemContent: string -> string)
    : (r: Result<Reply, ChatError>)
    ensures r.Err? <==> GateSaysYes(choices) && messages == []
    ensures r.Ok? ==> r.value.gateMessages == [Some(Message("system", questionCheckPrompt)), LastUserMessage(messages)]
    ensures r.Ok? && messages != [] ==> r.value.gateMessages[1] == Some(messages[|messages| - 1])
    ensures r.Ok? ==> (r.value.search.Some? <==> GateSaysYes(choices))
    ensures r.Ok? && !GateSaysYes(choices) ==> r.value.context == ""
    ensures r.Ok? && r.value.search.Some? ==>
      var search := r.value.search.value;
      && search.query == messages[|messages| - 1].content
      && search.filter == fileId && search.limit == SearchLimit
      && |search.results| <= SearchLimit
      && (forall d :: d in search.results ==> d.fileId == fileId && d in ranked)
      && r.value.context == Join(Texts(search.results), "\n")
    ensures r.Ok? ==>
      && |r.value.generation| == |messages| + 1
      && r.value.generation[0] == Message("system", systemContent(r.value.context))
      && r.value.generation[1..] == messages
  {
    var lastUserMessage := LastUserMessage(messages);
    var gateMessages := [Some(Message("system", questionCheckPrompt)), lastUserMessage];
    if GateSaysYes(choices) then
      if lastUserMessage.None? then Err(LastMessageUndefined)
      else
        var results := Find(ranked, fileId, SearchLimit);
        var context := Join(Texts(results), "\n");
        var search := Search(lastUserMessage.value.content, fileId, SearchLimit, results);
        Ok(Reply(gateMessages, Some(search), context, [Message("system", systemContent(context))] + messages))
    else
      Ok(Reply(gateMessages, None, "", [Message("system", systemContent(""))] + messages))
  }

  /**
   * The gate opens exactly when the last choice's content is "yes" in any letter
   * case: no choice, a null content, or any other text keeps it closed.
   */
  lemma GateOpensOnYes(choices: seq<Choice>)
    ensures GateSaysYes(choices) <==>
      && |choices| > 0
      && choices[|choices| - 1].content.Some?
      && var s := choices[|choices| - 1].content.value;
         |s| == 3 && (s[0] == 'y' || s[0] == 'Y') && (s[1] == 'e' || s[1] == 'E') && (s[2] == 's' || s[2] == 'S')
  {
    if |choices| > 0 && choices[|choices| - 1].content.Some? {
      LowerIsYes(choices[|choices| - 1].content.value);
    }
  }

  /** "Yes", "YES" and "yes" open the gate; "yes.", "No", "" and a null content do not. */
  lemma GateExamples()
    ensures GateSaysYes([Choice(Some("Yes"))]) && GateSaysYes([Choice(Some("YES"))]) && GateSaysYes([Choice(Some("yes"))])
    ensures !GateSaysYes([Choice(Some("yes."))]) && !GateSaysYes([Choice(Some("No"))])
    ensures !GateSaysYes([Choice(Some(""))]) && !GateSaysYes([Choice(None)]) && !GateSaysYes([])
  {
    GateOpensOnYes([Choice(Some("Yes"))]);
    GateOpensOnYes([Choice(Some("YES"))]);
    GateOpensOnYes([Choice(Some("yes"))]);
    GateOpensOnYes([Choice(Some("No"))]);
  }

  /**
   * Retrieval is top-k: a record of the file is left out of the results only
   * when `limit` records already came back.
   */
  lemma {:induction false} FindIsTopK(ranked: seq<AstraDoc>, fileId: string, limit: nat, i: nat)
    requires i < |ranked| && ranked[i].fileId == fileId && ranked[i] !in Find(ranked, fileId, limit)
    ensures |Find(ranked, fileId, limit)| == limit
  {
    assert ranked[i] in Matching(ranked, fileId);
  }

  /** Retrieval for one file never returns a chunk of another file, whatever the ranking. */
  lemma ScopedRetrieval(ranked: seq<AstraDoc>, a: string, b: string, d: AstraDoc)
    requires a != b && d.fileId == b
    ensures d !in Find(ranked, a, SearchLimit)
  {
  }

  /**
   * A file with no stored chunks gives an empty context (not an error), and the
   * generation call still goes out.
   */
  lemma EmptyFileGivesEmptyContext(messages: seq<Message>, fileId: string, questionCheckPrompt: string,
                                   choices: seq<Choice>, ranked: seq<AstraDoc>, systemContent: string -> string)
    requires messages != []
    requires forall d :: d in ranked ==> d.fileId != fileId
    ensures Post(messages, fileId, questionCheckPrompt, choices, ranked, systemContent).Ok?
    ensures Post(messages, fileId, questionCheckPrompt, choices, ranked, systemContent).value.context == ""
  {
    var matching := Matching(ranked, fileId);
    assert forall i :: 0 <= i < |matching| ==> matching[i] in matching;
  }

  /**
   * The context is the retrieved texts joined by "\n": when no text holds a
   * newline and something was retrieved, splitting the context on "\n" gives the
   * texts back in result order.
   */
  lemma ContextRoundTrip(messages: seq<Message>, fileId: string, questionCheckPrompt: string,
                         choices: seq<Choice>, ranked: seq<AstraDoc>, systemContent: string -> string)
    requires forall d :: d in ranked ==> '\n' !in d.text
    requires Post(messages, fileId, questionCheckPrompt, choices, ranked, systemContent).Ok?
    requires Post(messages, fileId, questionCheckPrompt, choices, ranked, systemContent).value.search.Some?
    requires Post(messages, fileId, questionCheckPrompt, choices, ranked, systemContent).value.search.value.results != []
    ensures var reply := Post(messages, fileId, questionCheckPrompt, choices, ranked, systemContent).value;
      Split(reply.context, '\n') == Texts(reply.search.value.results)
  {
    var reply := Post(messages, fileId, questionCheckPrompt, choices, ranked, systemContent).value;
    var texts := Texts(reply.search.value.results);
    forall i | 0 <= i < |texts| ensures '\n' !in texts[i] {
      assert reply.search.value.results[i] in ranked;
    }
    SplitJoin(texts, '\n');
  }

  /** Joining: no results give "", one result gives its text with no separator. */
  lemma ContextOfFewResults(a: AstraDoc)
    ensures Join(Texts([]), "\n") == ""
    ensures Join(Texts([a]), "\n") == a.text
  {
  }
}
