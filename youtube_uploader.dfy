// The upload request that TrendClip sends to the YouTube Data API, the result it reports, and
// the command line's tag parsing. OAuth, the network and the Google client library are inputs.

module YouTubeUploader {
  import opened Wrappers
  import opened Text
  import opened Paths

  datatype Snippet = Snippet(title: string, description: Option<string>, tags: seq<string>, categoryId: string)
  datatype Status = Status(privacyStatus: string, selfDeclaredMadeForKids: bool)
  /** The `body` dictionary: its keys, in insertion order, are `BodyKeys`. */
  datatype Body = Body(snippet: Snippet, status: Status)
  const BodyKeys: seq<string> := ["snippet", "status"]

  /** The arguments of `videos().insert`, without the media. */
  datatype Request = Request(part: string, body: Body)
  /** The fields of the API's response that the uploader reads. */
  datatype Response = Response(id: string, title: string)
  /** One call of `next_chunk`: still uploading, finished with a response, or raising. */
  datatype Chunk = Progress | Done(response: Response) | ChunkFailed(message: string)

  /** The dictionary `upload_video` returns. */
  datatype UploadResult = Uploaded(videoId: string, title: string, url: string) | UploadFailed(error: string)

  const ShortsTag := "#Shorts"
  const WatchPrefix := "https://www.youtube.com/watch?v="
  const DefaultCategory := "22"

  /** `",".join(body.keys())`. */
  function Part(): (r: string)
    ensures r == "snippet,status"
  {
    Join(BodyKeys, ",")
  }

  /** `title or video_path.stem`. */
  function ChosenTitle(title: Option<string>, video: Path): (r: string)
    ensures title.Some? && title.value != "" ==> r == title.value
    ensures title.None? || title.value == "" ==> r == Stem(video)
  {
    if title.Some? && title.value != "" then title.value else Stem(video)
  }

  lemma SuffixContained(t: string)
    ensures Contains(t + " " + ShortsTag, ShortsTag)
  {
    ContainsPrefix(ShortsTag, ShortsTag);
    ContainsAppendRight(t + " ", ShortsTag, ShortsTag);
    assert t + " " + ShortsTag == (t + " ") + ShortsTag;
  }

  /** The `#Shorts` rule: a short without the tag in its title gets " #Shorts" appended. */
  function ShortsTitle(title: string, isShort: bool): (r: string)
    ensures title <= r
    ensures r == title || r == title + " " + ShortsTag
    ensures isShort ==> Contains(r, ShortsTag)
    ensures r != title <==> isShort && !Contains(title, ShortsTag)
  {
    if isShort && !Contains(title, ShortsTag) then
      SuffixContained(title);
      title + " " + ShortsTag
    else title
  }

  /** Applying the rule to its own output changes nothing. */
  lemma ShortsTitleIdempotent(title: string, isShort: bool)
    ensures ShortsTitle(ShortsTitle(title, isShort), isShort) == ShortsTitle(title, isShort)
  {
  }

  /** The body `upload_video` sends, after the `#Shorts` rule. */
  function BuildBody(video: Path, title: Option<string>, description: Option<string>, tags: Option<seq<string>>,
                     privacy: string, categoryId: string, isShort: bool): (b: Body)
    ensures b.status == Status(privacy, false)
    ensures b.snippet.description == description && b.snippet.categoryId == categoryId
    ensures tags.None? || tags.value == [] ==> b.snippet.tags == []
    ensures tags.Some? ==> b.snippet.tags == tags.value
    ensures ChosenTitle(title, video) <= b.snippet.title
    ensures isShort ==> Contains(b.snippet.title, ShortsTag)
    ensures !isShort ==> b.snippet.title == ChosenTitle(title, video)
    ensures Contains(ChosenTitle(title, video), ShortsTag) ==> b.snippet.title == ChosenTitle(title, video)
    ensures b.snippet.title == ShortsTitle(ChosenTitle(title, video), isShort)
  {
    Body(Snippet(ShortsTitle(ChosenTitle(title, video), isShort), description,
                 if tags.Some? then tags.value else [], categoryId),
         Status(privacy, false))
  }

  /** The watch page of an uploaded video. */
  function WatchUrl(id: string): (url: string)
    ensures |url| == |WatchPrefix| + |id|
    ensures url[..|WatchPrefix|] == WatchPrefix && url[|WatchPrefix|..] == id
  {
    WatchPrefix + id
  }

  /** The video id of a watch URL, if it is one. */
  function WatchId(url: string): (id: Option<string>)
    ensures id.Some? ==> WatchPrefix <= url && url == WatchPrefix + id.value
  {
    if WatchPrefix <= url then
      assert url == WatchPrefix + url[|WatchPrefix|..];
      Some(url[|WatchPrefix|..])
    else None
  }

  lemma WatchUrlRoundTrip(id: string)
    ensures WatchId(WatchUrl(id)) == Some(id)
  {
    assert WatchPrefix <= WatchUrl(id);
  }

  /** The upload loop ends: some call of `next_chunk` returns a response or raises. */
  predicate Finishes(chunks: seq<Chunk>)
  {
    exists k :: 0 <= k < |chunks| && !chunks[k].Progress?
  }

  /** The first `k` chunks all report progress. */
  predicate AllProgress(chunks: seq<Chunk>, k: int)
    requires k <= |chunks|
  {
    forall j :: 0 <= j < k ==> chunks[j].Progress?
  }

  /** The index of the first chunk that is not progress. */
  function FirstTerminal(chunks: seq<Chunk>): (k: nat)
    requires Finishes(chunks)
    ensures k < |chunks| && !chunks[k].Progress?
    ensures forall j :: 0 <= j < k ==> chunks[j].Progress?
    decreases |chunks|
  {
    if !chunks[0].Progress? then 0
    else
      var w :| 0 <= w < |chunks| && !chunks[w].Progress?;
      assert chunks[1..][w - 1] == chunks[w];
      var k := FirstTerminal(chunks[1..]);
      assert forall j :: 1 <= j <= k ==> chunks[j] == chunks[1..][j - 1];
      1 + k
  }

  /** What the upload loop ends with: the first response, or the first error. */
  function UploadOutcome(chunks: seq<Chunk>): (r: Result<Response, string>)
    requires Finishes(chunks)
    ensures forall k :: 0 <= k < |chunks| && !chunks[k].Progress? && AllProgress(chunks, k) ==>
              r == (if chunks[k].Done? then Ok(chunks[k].response) else Err(chunks[k].message))
  {
    var k := FirstTerminal(chunks);
    if chunks[k].Done? then Ok(chunks[k].response) else Err(chunks[k].message)
  }

  /** The returned dictionary for a finished upload loop. */
  function Report(outcome: Result<Response, string>): (r: UploadResult)
    ensures outcome.Ok? ==> (r.Uploaded? && r.videoId == outcome.value.id && r.title == outcome.value.title &&
                             WatchId(r.url) == Some(r.videoId))
    ensures outcome.Err? ==> r == UploadFailed(outcome.error)
  {
    match outcome
    case Ok(resp) =>
      WatchUrlRoundTrip(resp.id);
      Uploaded(resp.id, resp.title, WatchUrl(resp.id))
    case Err(e) => UploadFailed(e)
  }

  function NotFoundMessage(video: Path): string
  {
    "Video file not found: " + PathText(video)
  }

  class Uploader {
    /** Whether `self.youtube` holds a built service. */
    var connected: bool

    constructor()
      ensures !connected
    {
      connected := false;
    }

    /**
     * `upload_video`. `authenticate` is the outcome of authenticating when no service exists
     * yet, `fileExists` answers `video_path.exists()`, and `chunks` are the successive results of
     * `next_chunk`. `request` is the request handed to the API, if any. Every failure is
     * reported in the result; nothing escapes.
     */
    method UploadVideo(video: Path, fileExists: bool, title: Option<string>, description: Option<string>,
                       tags: Option<seq<string>>, privacy: string, categoryId: string, isShort: bool,
                       authenticate: Outcome, chunks: seq<Chunk>)
      returns (r: UploadResult, request: Option<Request>)
      requires Finishes(chunks)
      modifies this
      ensures connected == (old(connected) || authenticate.Pass?)
      ensures !old(connected) && authenticate.Fail? ==> r == UploadFailed(authenticate.message) && request.None?
      ensures connected && !fileExists ==> r == UploadFailed(NotFoundMessage(video)) && request.None?
      ensures connected && fileExists ==>
        request == Some(Request(Part(), BuildBody(video, title, description, tags, privacy, categoryId, isShort))) &&
        r == Report(UploadOutcome(chunks))
    {
      request := None;
      if !connected {
        if authenticate.Fail? {
          return UploadFailed(authenticate.message), None;
        }
        connected := true;
      }
      if !fileExists {
        return UploadFailed(NotFoundMessage(video)), None;
      }
      request := Some(Request(Part(), BuildBody(video, title, description, tags, privacy, categoryId, isShort)));
      r := NextChunkLoop(chunks);
    }

    /** The `next_chunk` loop: progress reports are skipped until a response arrives or a
        call raises. */
    method NextChunkLoop(chunks: seq<Chunk>) returns (r: UploadResult)
      requires Finishes(chunks)
      ensures r == Report(UploadOutcome(chunks))
    {
      var i := 0;
      var response: Option<Response> := None;
      while response.None?
        invariant 0 <= i <= |chunks|
        invariant response.None? ==> forall j :: 0 <= j < i ==> chunks[j].Progress?
        invariant response.Some? ==> forall j :: 0 <= j < i - 1 ==> chunks[j].Progress?
        invariant response.None? ==> i < |chunks|
        invariant response.Some? ==> 0 < i && chunks[i - 1] == Done(response.value)
        decreases |chunks| - i
      {
        var step := chunks[i];
        i := i + 1;
        match step
        case Progress =>
          if i == |chunks| {
            assert forall j :: 0 <= j < |chunks| ==> chunks[j].Progress?;
            assert false;
          }
        case Done(resp) =>
          response := Some(resp);
        case ChunkFailed(message) =>
          UploadOutcomeAt(chunks, i - 1);
          return UploadFailed(message);
      }
      UploadOutcomeAt(chunks, i - 1);
      r := Uploaded(response.value.id, response.value.title, WatchUrl(response.value.id));
    }
  }

  /** The loop's outcome is decided by the first chunk that is not progress. */
  lemma UploadOutcomeAt(chunks: seq<Chunk>, k: nat)
    requires k < |chunks| && !chunks[k].Progress?
    requires forall j :: 0 <= j < k ==> chunks[j].Progress?
    ensures Finishes(chunks) && FirstTerminal(chunks) == k
    ensures UploadOutcome(chunks) == (if chunks[k].Done? then Ok(chunks[k].response) else Err(chunks[k].message))
  {
    var f := FirstTerminal(chunks);
    assert f == k;
  }

  /** `[tag.strip() for tag in args.tags.split(',')] if args.tags else None`. */
  function ParseTags(arg: Option<string>): (r: Option<seq<string>>)
    ensures r.None? <==> arg.None? || arg.value == ""
    ensures r.Some? ==> |r.value| == Count(arg.value, ',') + 1
    ensures r.Some? ==> forall k :: 0 <= k < |r.value| ==> ',' !in r.value[k] && Strip(r.value[k]) == r.value[k]
  {
    if arg.None? || arg.value == "" then None
    else
      var pieces := Split(arg.value, ',');
      StripAllStripped(pieces, ',');
      Some(StripAll(pieces))
  }

  /**
   * The body the command line uploads: `--title`, `--description`, `--tags` and `--privacy`
   * as given, the default category, and the video treated as a short.
   */
  function CommandLineBody(video: Path, title: Option<string>, description: Option<string>,
                           tagsArg: Option<string>, privacy: string): (b: Body)
    ensures b.snippet.categoryId == DefaultCategory && b.status == Status(privacy, false)
    ensures Contains(b.snippet.title, ShortsTag)
    ensures tagsArg.None? || tagsArg.value == "" ==> b.snippet.tags == []
    ensures tagsArg.Some? && tagsArg.value != "" ==> |b.snippet.tags| == Count(tagsArg.value, ',') + 1
  {
    BuildBody(video, title, description, ParseTags(tagsArg), privacy, DefaultCategory, true)
  }

  /** Every piece of the argument, stripped, is a tag, in order. */
  lemma ParseTagsPieces(arg: string, k: nat)
    requires arg != "" && k <= Count(arg, ',')
    ensures ParseTags(Some(arg)).value[k] == Strip(Split(arg, ',')[k])
  {
  }

  /** Tags without commas or surrounding whitespace survive being joined with commas and parsed. */
  lemma ParseTagsJoin(tags: seq<string>)
    requires |tags| >= 1
    requires forall k :: 0 <= k < |tags| ==> ',' !in tags[k] && Strip(tags[k]) == tags[k]
    requires Join(tags, ",") != ""
    ensures ParseTags(Some(Join(tags, ","))) == Some(tags)
  {
    var joined := Join(tags, ",");
    assert ParseTags(Some(joined)) == Some(StripAll(Split(joined, ',')));
    SplitJoin(tags, ',');
    StripAllTrimmed(tags);
  }
}
