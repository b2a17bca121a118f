# astra-rag core, modelled in Dafny

This project models the logic of a retrieval-augmented chat application built
on OpenAI, Astra DB and Vercel Blob. Everything around that logic is service
glue. The project covers three pieces:

- **Ingestion** (`app/api/embed/vectorization.ts`). The document's split strings
  are zipped with their embeddings into Astra records that all share one
  `fileId`. `chunkArray` cuts the records into batches of 20. One `insertMany`
  goes out per batch, and `vectorizeFile` answers `"DOCUMENT_STORED"` only when
  every insert resolved.
- **Chat route** (`app/api/chat/route.ts`). The last message goes to a
  classifier together with the question-check prompt. Only an answer equal to
  `"yes"` after lower-casing triggers retrieval. Retrieval is a search filtered
  by `fileId` with limit 5. The context is the retrieved texts joined by `"\n"`,
  or `""` when the gate is closed. The generation call receives the system
  prompt followed by the unchanged conversation.
- **Upload page** (`app/page.tsx`). `generateID` draws a 16-character identifier
  whose first character is a letter. `processFile` resets its flags, raises the
  size notice, shortens the shown name, checks the MIME type and takes the type
  badge from the name. It then sets `uploadStep` to 1 and starts the blob upload.
  When the upload resolves with a non-empty URL, it sets step 2 and sends the
  embedding request. An ok response gives step 3, and a response that is not ok
  sets `hasError`. An empty URL stops at step 1 with no error flag. A rejected
  upload or fetch throws without setting the flag.

The external services are parameters of the model:

- the classifier's `choices`;
- the collection, already ordered by similarity to the query vector;
- the prompt template as a function from context to prompt text;
- the outcome of each `insertMany`;
- the values `Math.random()` returns;
- the outcomes of the blob upload and of the `fetch`.

Files:

- `wrappers.dfy`: `Option` and `Result`.
- `text.dfy`: JavaScript `split`, `join`, `toLowerCase` and `toUpperCase`. Lemmas show that `split` and `join` invert each other, count the pieces of a split, and list the strings that lower-case to "yes".
- `vectorization.dfy`: ingestion.
- `chat_route.dfy`: the chat route.
- `upload_page.dfy`: the upload page, as the class `FileUploadPage` whose fields are the page's state variables.

Two things the code does not do are worth stating, since the model follows the code:

- Ingestion has no bounded concurrency, retry, backoff or partial-failure result.
  It fires every batch at once through `Promise.all`, and any rejection makes
  `vectorizeFile` throw.
- `POST` never checks the role of the last message, nor that `messages` is non-empty.

## Model

| member | source | states |
|---|---|---|
| Vectorization.AstraDocs | app/api/embed/vectorization.ts:46-50 | one record per split string; taking the texts and vectors back out gives `splitStrings` and the embeddings in order; every record carries the given `fileId` |
| Vectorization.ChunkArray | app/api/embed/vectorization.ts:95-107 | the reduce loop, which opens chunk `floor(index / chunkSize)` when missing and pushes onto it, computes exactly the partition `Batches(arr, chunkSize)` |
| Vectorization.FlattenBatches | app/api/embed/vectorization.ts:95-107 | concatenating the batches gives back the input: nothing omitted, duplicated or reordered |
| Vectorization.BatchSizes | app/api/embed/vectorization.ts:98-104 | every batch is non-empty and holds at most `k` elements; every batch but the last holds exactly `k` |
| Vectorization.BatchCount | app/api/embed/vectorization.ts:96-106 | there are ceil(n / k) batches, written `(n + k - 1) / k`, so an empty input gives no batches |
| Vectorization.BatchPosition | app/api/embed/vectorization.ts:98-104 | input element `i` is element `i % k` of batch `i / k` |
| Vectorization.BatchMembers | app/api/embed/vectorization.ts:95-107 | every element of every batch is an element of the input |
| Vectorization.BatchesSnoc | app/api/embed/vectorization.ts:100-104 | one more element opens a new batch exactly when the last batch is full, and otherwise extends the last batch |
| Vectorization.ChunkStep | app/api/embed/vectorization.ts:98-104 | the chunk index `floor(index / k)` names either the next, not yet existing chunk or the last chunk, and pushing there extends the partition by one element |
| Vectorization.VectorizeFile | app/api/embed/vectorization.ts:46-85 | the issued batches flatten to the assembled records; each holds at most 20 records, all with the caller's `fileId`; the status is `"DOCUMENT_STORED"` exactly when every batch insert resolved, and an error otherwise |
| ChatRoute.Matching | app/api/chat/route.ts:62-63 | the records kept by the `{fileId}` filter are exactly those of the ranked collection with that `fileId` |
| ChatRoute.MatchingOrder | app/api/chat/route.ts:55-63 | the filter keeps the ranking's order: filtering a concatenation gives the concatenation of the filtered parts |
| ChatRoute.MatchingOne | app/api/chat/route.ts:62-63 | a single record is kept iff it has the file's id |
| ChatRoute.Find | app/api/chat/route.ts:55-78 | at most `limit` results, all of the requested file and all from the collection; as many as the file has, up to the limit; they are the first of the matching records, taken in the order of the ranking |
| ChatRoute.Post | app/api/chat/route.ts:30-95 | the gate call sends exactly `[question-check prompt, last message]`; a search happens iff the gate says yes, with the last message's content as query, the `fileId` filter and limit 5; when the gate is closed the context is `""`; otherwise the context is the result texts joined by `"\n"`; the generation messages are the system prompt followed by the unchanged `messages` (length + 1); the request fails only when the gate opens and there is no last message |
| ChatRoute.GateOpensOnYes | app/api/chat/route.ts:46 | the gate opens iff a last choice exists and its content is non-null and spells "yes" in any letter case |
| ChatRoute.GateExamples | app/api/chat/route.ts:46 | "Yes", "YES" and "yes" open the gate; "yes.", "No", "", a null content and no choice keep it closed |
| ChatRoute.FindIsTopK | app/api/chat/route.ts:55-63 | a matching record missing from the results means the limit was reached |
| ChatRoute.ScopedRetrieval | app/api/chat/route.ts:63 | a search for one file never returns a record of a different file, whatever the ranking |
| ChatRoute.EmptyFileGivesEmptyContext | app/api/chat/route.ts:43-81 | for a file with no stored chunks, the request succeeds with context `""` |
| ChatRoute.ContextRoundTrip | app/api/chat/route.ts:81 | if no retrieved text contains a newline and at least one was retrieved, splitting the context on `"\n"` gives back the retrieved texts in result order |
| ChatRoute.ContextOfFewResults | app/api/chat/route.ts:81 | zero results join to `""`; one result joins to its text with no separator |
| Text.Split | app/page.tsx:64 | `split(".")` gives at least one piece and no piece contains the separator; the first piece is the prefix of the string up to the first separator, or the whole string when there is none |
| Text.JoinSplit | app/page.tsx:64 | joining the pieces of a split with the same separator gives back the original string |
| Text.SplitJoin | app/api/chat/route.ts:81 | splitting a join of separator-free parts gives back those parts |
| Text.SplitCount | app/page.tsx:80 | a split has one more piece than the string has separators |
| Text.LowerIsYes | app/api/chat/route.ts:46 | `toLowerCase() === "yes"` holds exactly for the eight letter-case spellings of "yes" |
| UploadPage.FirstCharsAreLetters | app/page.tsx:30-33 | the alphabet has 63 characters, and the first 52 (the range of the first draw) are letters |
| UploadPage.AlphabetChars | app/page.tsx:30-31 | every alphabet character is a letter, a digit or `_` |
| UploadPage.Pick | app/page.tsx:33-37 | `Math.floor(r * n)` with `r` in [0, 1) is a valid index in [0, n) |
| UploadPage.GenerateId | app/page.tsx:27-42 | the loop builds the identifier character by character: position 0 comes from the first draw among 52 characters, each later position from its own draw among all 63 |
| UploadPage.DrawnIdShape | app/page.tsx:33-39 | a generated identifier has length 16, starts with a letter A-Z or a-z, and uses only `A-Z a-z 0-9 _` |
| UploadPage.DisplayNameShape | app/page.tsx:64-68 | the shown name is the text before the first "."; if that text is longer than 20 characters, the shown name is its first 20 characters plus "...", so it is never longer than 23 |
| UploadPage.TypeBadge | app/page.tsx:80 | the badge is defined iff the name contains a "." |
| UploadPage.BadgeIsSecondPiece | app/page.tsx:80 | the badge is the upper-cased piece after the first ".", not the extension ("notes.v2.pdf" gives "V2") |
| UploadPage.FileUploadPage.constructor | app/page.tsx:14-20 | the page starts with empty name and type, flags false, step 0 and no identifier |
| UploadPage.FileUploadPage.ProcessFile | app/page.tsx:49-114 | `wrongFileType` iff the type is not one of the three accepted MIME types; `fileSizeFlag` iff size > 1000000, which does not block the upload; `hasError` iff the embed response is not ok; a wrong type, or no "." in the name (which throws), leaves `uploadStep`, badge and identifier unchanged and sends no request; otherwise `uploadStep` takes the values 1, 2, 3 in order, as far as the outcomes allow |
| UploadPage.FileUploadPage.UploadAndEmbed | app/page.tsx:82-113 | step 1 and a new identifier, then the blob upload with that identifier as payload; on a truthy URL, step 2 and the embed request carrying that URL and identifier; step 3 on an ok response, otherwise `hasError` |

## Left out

- ChatRoute.Post: takes `fileId` as a string. A request whose `fileId` is null or absent (the chat page sends `null` when the `fileId` query parameter is missing) builds the filter `{fileId: null}` or `{fileId: undefined}`. How the store answers such a filter (match nothing, or an unscoped search) is store-side behaviour that is not part of this model. So `ScopedRetrieval` holds only for requests that carry a string `fileId`.
- Network and service calls are not modelled. This covers OpenAI chat completions, `OpenAIEmbeddings`, the Astra `collection`/`insertMany`/`find`/`toArray` calls, the Vercel `upload` and `fetch`. Their results are parameters.
- Rejected awaits in the chat route are not modelled (the gate call, `embedQuery`, `find`, `toArray`, the generation call). They make the handler reject, and the model takes each call's resolved value.
- Failures of the loader, the splitter and `embedDocuments` in `vectorizeFile` are not modelled either. The model starts from their results. Only `insertMany` outcomes are modelled there.
- Whether the OpenAI service accepts a gate call whose second entry is `undefined` (empty `messages`) is the service's behaviour. The model takes the reply as given.
- Streaming of the answer (`OpenAIStream`, `StreamingTextResponse`) is not modelled; its point is token delivery.
- `Promise.all` fan-out is not modelled. The model records which batches are issued, not when they are sent or in what order they finish.
- `LoaderFactory` is not part of this model. `RecursiveCharacterTextSplitter` is a library, and its output is the `splitStrings` input.
- Vectors are opaque `seq<real>`. Similarity ranking is the order of the `ranked` input.
- The prompt templates `QuestionCheckPrompt` and `SystemPrompt.format` are not part of this model. They appear as a string parameter and a function parameter.
- `app/chat/page.tsx` (rendering and `useChat`) and `app/api/embed/route.ts` (HTTP wrapper around `vectorizeFile`) are not modelled.
- The JSX of `app/page.tsx` and `router.push` are not modelled.
- React state setters are modelled as immediate field writes. Intermediate renders between awaits are not modelled.
- `toLowerCase`/`toUpperCase` map only the ASCII letters.
- String lengths count characters, not UTF-16 code units.
- Vectorization.ChunkArray: takes a positive whole `chunkSize`, because the only caller passes 20. The JavaScript behaviour for 0 or fractional sizes is not modelled.
- Vectorization.AstraDocs: requires one embedding per split string. That is what `embedDocuments` returns, so the `undefined` vectors a shorter list would give are not modelled.
- UploadPage.GenerateId: requires exactly sixteen draws, each in [0, 1), as `Math.random()` returns. The products are exact reals, so floating-point rounding of `Math.random() * n` is not modelled.
- Retry, backoff, bounded concurrency and partial-failure results are not modelled, because the code does not implement them.
