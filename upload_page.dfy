/**
 * The upload page: the random identifier for an upload, and `processFile`,
 * which validates a chosen file, shows its shortened name and type badge, and
 * moves the progress indicator through upload (step 1), embedding (step 2) and
 * done (step 3).
 *
 * Randomness and the two awaited network calls are parameters: `draws` are the
 * successive values of `Math.random()`, `upload` what the blob upload did, and
 * `embed` what the `fetch` of the embedding route did.
 */
module UploadPage {
  import opened Wrappers
  import opened Text

  const UpperCaseLetters: string := "ABCDEFGHIJKLMNOPQRSTUVWXYZ"
  const LowerCaseLetters: string := "abcdefghijklmnopqrstuvwxyz"
  const DigitsAndUnderscore: string := "0123456789_"

  /** The identifier alphabet "ABC...XYZabc...xyz0123456789_": 52 letters, 10 digits and '_'. */
  const Characters: string := UpperCaseLetters + LowerCaseLetters + DigitsAndUnderscore

  /** How many characters of the alphabet the first identifier character is drawn from (the letters). */
  const FirstCharRange: nat := 52

  /** Length of a generated identifier. */
  const IdLength: nat := 16

  /** Files larger than this many bytes raise the size notice. */
  const MaxFileSize: nat := 1000000

  /** The longest file name shown without truncation. */
  const MaxNameLength: nat := 20

  /** A file chosen by the user: its name, declared MIME type and size in bytes. */
  datatype File = File(name: string, mimeType: string, size: nat)

  /** What the awaited blob `upload` did: resolved with a URL, or rejected. */
  datatype UploadOutcome = Uploaded(url: string) | UploadRejected

  /** What the awaited `fetch` of the embedding route did: a response with its `ok` flag, or a rejection. */
  datatype EmbedOutcome = EmbedResponse(ok: bool) | FetchRejected

  /** The requests `processFile` sends: the blob upload, then the embedding request. */
  datatype Request = BlobUpload(pathname: string, clientPayload: string) | EmbedRequest(fileUrl: string, fileId: string)

  /** Why `processFile` rejected. */
  datatype Failure =
    | NoSecondSegment   // `file.name.split(".")[1]` is undefined, so `.toUpperCase()` throws
    | UploadFailed      // the blob upload rejected
    | FetchFailed       // the fetch of the embedding route rejected

  /** How a call of `processFile` ended. */
  datatype Exit = Returned | Threw(failure: Failure)

  predicate IsLetter(c: char)
  {
    'A' <= c <= 'Z' || 'a' <= c <= 'z'
  }

  predicate InAlphabet(c: char)
  {
    IsLetter(c) || '0' <= c <= '9' || c == '_'
  }

  /** The alphabet's first 52 characters are the letters A-Z and a-z. */
  lemma FirstCharsAreLetters()
    ensures |Characters| == 63
    ensures forall i :: 0 <= i < FirstCharRange ==> IsLetter(Characters[i])
  {
    assert forall i :: 0 <= i < |UpperCaseLetters| ==> 'A' <= UpperCaseLetters[i] <= 'Z';
    assert forall i :: 0 <= i < |LowerCaseLetters| ==> 'a' <= LowerCaseLetters[i] <= 'z';
    forall i | 0 <= i < FirstCharRange
      ensures IsLetter(Characters[i])
    {
      if i < 26 {
        assert Characters[i] == UpperCaseLetters[i];
      } else {
        assert Characters[i] == LowerCaseLetters[i - 26];
      }
    }
  }

  /** Every character of the alphabet is a letter, a digit or '_'. */
  lemma AlphabetChars()
    ensures forall i :: 0 <= i < |Characters| ==> InAlphabet(Characters[i])
  {
    FirstCharsAreLetters();
    assert forall i :: 0 <= i < |DigitsAndUnderscore| ==>
      '0' <= DigitsAndUnderscore[i] <= '9' || DigitsAndUnderscore[i] == '_';
    forall i | FirstCharRange <= i < |Characters|
      ensures InAlphabet(Characters[i])
    {
      assert Characters[i] == DigitsAndUnderscore[i - FirstCharRange];
    }
  }

  /** `Math.floor(draw * n)`: for a draw in [0, 1), an index in [0, n). */
  function Pick(draw: real, n: nat): (i: int)
    requires 0.0 <= draw < 1.0 && n > 0
    ensures 0 <= i < n
  {
    var scaled := draw * n as real;
    ScaledDraw(draw, n as real);
    assert scaled.Floor as real <= scaled < n as real;
    scaled.Floor
  }

  /** A draw in [0, 1) scaled by a positive `n` lies in [0, n). */
  lemma ScaledDraw(draw: real, n: real)
    requires 0.0 <= draw < 1.0 && n > 0.0
    ensures 0.0 <= draw * n < n
  {
  }

  /** `s.charAt(i)`: the character at `i`, or "" when `i` is out of range. */
  function CharAt(s: string, i: int): string
  {
    if 0 <= i < |s| then [s[i]] else ""
  }

  /** How many alphabet characters position `j` of an identifier is drawn from. */
  function RangeAt(j: nat): nat
  {
    if j == 0 then FirstCharRange else |Characters|
  }

  predicate IsDraw(d: real)
  {
    0.0 <= d < 1.0
  }

  /** `id` is the identifier the random values `draws` produce, one character per draw. */
  predicate DrawnId(id: string, draws: seq<real>)
  {
    && |id| == IdLength && |draws| == IdLength
    && forall j :: 0 <= j < IdLength ==>
         IsDraw(draws[j]) && Pick(draws[j], RangeAt(j)) < |Characters| &&
         id[j] == Characters[Pick(draws[j], RangeAt(j))]
  }

  /** An identifier drawn this way starts with a letter and uses only the 63-character alphabet. */
  lemma DrawnIdShape(id: string, draws: seq<real>)
    requires DrawnId(id, draws)
    ensures |id| == IdLength
    ensures IsLetter(id[0])
    ensures forall j :: 0 <= j < |id| ==> InAlphabet(id[j])
  {
    FirstCharsAreLetters();
    AlphabetChars();
    assert id[0] == Characters[Pick(draws[0], FirstCharRange)];
  }

  /**
   * `generateID`: a first character among the letters, then fifteen from the whole
   * alphabet, one random draw each.
   */
  method GenerateId(draws: seq<real>) returns (id: string)
    requires |draws| == IdLength
    requires forall j :: 0 <= j < |draws| ==> IsDraw(draws[j])
    ensures DrawnId(id, draws)
  {
    id := CharAt(Characters, Pick(draws[0], FirstCharRange));
    for i := 1 to IdLength
      invariant |id| == i
      invariant forall j :: 0 <= j < i ==> id[j] == Characters[Pick(draws[j], RangeAt(j))]
    {
      id := id + CharAt(Characters, Pick(draws[i], |Characters|));
    }
  }

  /**
   * The name shown for a file: the text before its first '.', cut to 20
   * characters followed by "..." when longer.
   */
  function DisplayName(name: string): string
  {
    var before := Split(name, '.')[0];
    if |before| > MaxNameLength then before[..MaxNameLength] + "..." else before
  }

  /**
   * The shown name is at most 23 characters long. A short one is all of the
   * name's text before its first '.'; a long one is the first 20 characters of
   * that text followed by "...".
   */
  lemma DisplayNameShape(name: string)
    ensures |DisplayName(name)| <= MaxNameLength + 3
    ensures var shown := DisplayName(name);
      |shown| <= MaxNameLength ==>
        && |shown| <= |name| && shown == name[..|shown|] && '.' !in shown
        && (|shown| == |name| || name[|shown|] == '.')
    ensures var shown := DisplayName(name);
      |shown| > MaxNameLength ==>
        && |shown| == MaxNameLength + 3 && |name| > MaxNameLength
        && shown[..MaxNameLength] == name[..MaxNameLength] && shown[MaxNameLength..] == "..."
        && '.' !in name[..MaxNameLength + 1]
  {
    var before := Split(name, '.')[0];
    if |before| > MaxNameLength {
      assert name[..MaxNameLength + 1] == before[..MaxNameLength + 1];
    }
  }

  /** The MIME types the page accepts. */
  predicate AcceptedType(mimeType: string)
  {
    mimeType != "" && (mimeType == "application/pdf" || mimeType == "text/plain" || mimeType == "text/csv")
  }

  /** The type badge: the second '.'-separated piece of the name, upper-cased; undefined without a '.'. */
  function TypeBadge(name: string): (badge: Option<string>)
    ensures badge.Some? <==> '.' in name
  {
    var pieces := Split(name, '.');
    SplitCount(name, '.');
    if |pieces| >= 2 then Some(ToUpper(pieces[1])) else None
  }

  /**
   * The badge is taken from the piece after the first '.', not from the
   * extension: "notes.v2.pdf" shows "V2".
   */
  lemma {:induction false} BadgeIsSecondPiece(first: string, second: string, rest: string)
    requires '.' !in first && '.' !in second
    requires rest == "" || rest[0] == '.'
    ensures TypeBadge(first + "." + second + rest) == Some(ToUpper(second))
  {
    var name := first + "." + second + rest;
    assert name == first + ['.'] + (second + rest);
    SplitAfterPiece(first, '.', second + rest);
    if rest == "" {
      assert second + rest == second;
      SplitWithoutSep(second, '.');
    } else {
      assert second + rest == second + ['.'] + rest[1..];
      SplitAfterPiece(second, '.', rest[1..]);
    }
  }

  /** A file that passes validation and has a badge: the upload starts for it. */
  predicate StartsUpload(file: Option<File>)
  {
    file.Some? && AcceptedType(file.value.mimeType) && '.' in file.value.name
  }

  /** The upload resolved with a truthy URL, so the embedding request goes out. */
  predicate ReachesEmbedding(file: Option<File>, upload: UploadOutcome)
  {
    StartsUpload(file) && upload.Uploaded? && upload.url != ""
  }

  /** The state of the upload page. */
  class FileUploadPage {
    var fileName: string
    var fileType: string
    var fileSizeFlag: bool
    var hasError: bool
    var uploadStep: nat
    var wrongFileType: bool
    /** `fileIdRef.current`: the identifier of the latest upload, null before the first. */
    var fileId: Option<string>

    constructor ()
      ensures fileName == "" && fileType == "" && !fileSizeFlag && !hasError
      ensures uploadStep == 0 && !wrongFileType && fileId == None
    {
      fileName, fileType := "", "";
      fileSizeFlag, hasError, wrongFileType := false, false, false;
      uploadStep := 0;
      fileId := None;
    }

    /**
     * `processFile`. `steps` lists the values given to `uploadStep`, in order.
     */
    method ProcessFile(file: Option<File>, draws: seq<real>, upload: UploadOutcome, embed: EmbedOutcome)
      returns (exit: Exit, requests: seq<Request>, ghost steps: seq<nat>)
      requires |draws| == IdLength && forall j :: 0 <= j < |draws| ==> IsDraw(draws[j])
      modifies this
      // flags: reset at entry, then set by the checks
      ensures wrongFileType <==> file.Some? && !AcceptedType(file.value.mimeType)
      ensures fileSizeFlag <==> file.Some? && file.value.size > MaxFileSize
      ensures hasError <==> ReachesEmbedding(file, upload) && embed == EmbedResponse(false)
      // name and badge
      ensures fileName == if file.Some? then DisplayName(file.value.name) else old(fileName)
      ensures fileType == if StartsUpload(file) then TypeBadge(file.value.name).value else old(fileType)
      // progress: uploadStep goes through 1, 2, 3 in order, as far as the outcomes allow
      ensures steps in [[], [1], [1, 2], [1, 2, 3]]
      ensures uploadStep == if steps == [] then old(uploadStep) else steps[|steps| - 1]
      ensures steps != [] <==> StartsUpload(file)
      ensures |steps| >= 2 <==> ReachesEmbedding(file, upload)
      ensures |steps| == 3 <==> ReachesEmbedding(file, upload) && embed == EmbedResponse(true)
      // the identifier and the requests sent
      ensures !StartsUpload(file) ==> fileId == old(fileId)
      ensures StartsUpload(file) ==> fileId.Some? && DrawnId(fileId.value, draws)
      ensures |requests| == if |steps| < 2 then |steps| else 2
      ensures |requests| >= 1 ==> requests[0] == BlobUpload(file.value.name, fileId.value)
      ensures |requests| == 2 ==> requests[1] == EmbedRequest(upload.url, fileId.value)
      // how the call ends
      ensures exit == Threw(NoSecondSegment) <==>
        file.Some? && AcceptedType(file.value.mimeType) && '.' !in file.value.name
      ensures exit == Threw(UploadFailed) <==> StartsUpload(file) && upload.UploadRejected?
      ensures exit == Threw(FetchFailed) <==> ReachesEmbedding(file, upload) && embed.FetchRejected?
    {
      wrongFileType := false;
      fileSizeFlag := false;
      hasError := false;
      exit, requests, steps := Returned, [], [];

      if file.None? {
        return;
      }
      var f := file.value;

      if f.size > MaxFileSize {
        fileSizeFlag := true;
      }

      fileName := DisplayName(f.name);
      if !AcceptedType(f.mimeType) {
        wrongFileType := true;
        return;
      }
      var badge := TypeBadge(f.name);
      if badge.None? {
        exit := Threw(NoSecondSegment);
        return;
      }
      fileType := badge.value;

      exit, requests, steps := UploadAndEmbed(f.name, draws, upload, embed);
    }

    /**
     * The second half of `processFile`, once the file is valid: step 1, a new
     * identifier, the blob upload; on a truthy URL step 2 and the request to the
     * embedding route; on an ok response step 3, otherwise the error flag.
     */
    method UploadAndEmbed(name: string, draws: seq<real>, upload: UploadOutcome, embed: EmbedOutcome)
      returns (exit: Exit, requests: seq<Request>, ghost steps: seq<nat>)
      requires |draws| == IdLength && forall j :: 0 <= j < |draws| ==> IsDraw(draws[j])
      modifies this`uploadStep, this`fileId, this`hasError
      ensures fileId.Some? && DrawnId(fileId.value, draws)
      ensures steps == if upload.Uploaded? && upload.url != "" then
                         (if embed == EmbedResponse(true) then [1, 2, 3] else [1, 2])
                       else [1]
      ensures uploadStep == steps[|steps| - 1]
      ensures hasError == (old(hasError) || (upload.Uploaded? && upload.url != "" && embed == EmbedResponse(false)))
      ensures requests == [BlobUpload(name, fileId.value)] +
                          if upload.Uploaded? && upload.url != "" then [EmbedRequest(upload.url, fileId.value)] else []
      ensures exit == if upload.UploadRejected? then Threw(UploadFailed)
                      else if upload.url != "" && embed.FetchRejected? then Threw(FetchFailed)
                      else Returned
    {
      exit := Returned;
      uploadStep := 1;
      steps := [1];

      var id := GenerateId(draws);
      fileId := Some(id);

      requests := [BlobUpload(name, id)];
      if upload.UploadRejected? {
        exit := Threw(UploadFailed);
        return;
      }

      if upload.url != "" {
        uploadStep := 2;
        steps := [1, 2];

        requests := requests + [EmbedRequest(upload.url, id)];
        if embed.FetchRejected? {
          exit := Threw(FetchFailed);
          return;
        }

        if embed.ok {
          uploadStep := 3;
          steps := [1, 2, 3];
        } else {
          hasError := true;
        }
      }
    }
  }
}
