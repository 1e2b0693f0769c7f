/** The Immich server as the read client sees it: requests, responses, and a server that may answer
    every request any way it likes. */
module Remote {
  import opened Bytes
  import opened Wrappers

  const U64_MAX: nat := 0xFFFF_FFFF_FFFF_FFFF

  datatype ErrorClass = Protocol | Compatibility | Cancelled | Transport | InvalidRequest | Invariant

  datatype AssetType = Image | Video | Audio | Other

  datatype MediaKind = ImageKind | VideoKind

  /** A 64-bit float, up to what the client asks of it. */
  datatype Float = NotFinite | Finite(value: real)

  datatype Exif = Exif(
    fileSize: Option<nat>,
    dateTimeOriginal: Option<string>,
    description: Option<string>,
    latitude: Option<Float>,
    longitude: Option<Float>)

  datatype AssetResponse = AssetResponse(
    id: string,
    originalFileName: string,
    checksum: string,
    kind: AssetType,
    exif: Option<Exif>,
    fileCreatedAt: Option<string>,
    fileModifiedAt: Option<string>,
    livePhotoVideoId: Option<string>)

  datatype SearchResponse = SearchResponse(
    items: seq<AssetResponse>,
    count: nat,
    nextPage: Option<string>,
    total: nat)

  datatype AlbumHeader = AlbumHeader(id: string, name: string, assetCount: nat)

  datatype Visibility = Timeline | Archive | Hidden

  datatype SearchRequest = SearchRequest(
    page: nat,
    size: nat,
    withExif: bool,
    albumId: Option<string>,
    visibility: Visibility,
    withDeleted: Option<bool>)

  datatype Event = Poll | Searched(request: SearchRequest) | Fetched(id: string) | ListedAlbums

  /** Any server, together with the cancellation token: each answer may depend on the request and on
      how many events came before it, so every sequence of responses is some server's. */
  datatype Server = Server(
    cancelled: nat -> bool,
    search: (nat, SearchRequest) -> Result<SearchResponse, ErrorClass>,
    detail: (nat, string) -> Result<AssetResponse, ErrorClass>,
    albums: nat -> Result<seq<AlbumHeader>, ErrorClass>)

  /** Library calls the model leaves uninterpreted. RFC 3339 instants are nanoseconds since 1970. */
  datatype Libraries = Libraries(
    sha256: string -> string,
    base64: string -> Option<seq<Byte>>,
    instant: string -> Option<int>,
    formatInstant: int -> Option<string>,
    decimal: real -> string)

  /** What a piece of client code returns, and the events it caused. */
  datatype Run<T> = Run(result: Result<T, ErrorClass>, log: seq<Event>)

  function After<T>(before: seq<Event>, run: Run<T>): (r: Run<T>)
    ensures r.result == run.result
  {
    Run(run.result, before + run.log)
  }

  /** The state of a loop that computes `run` from `start`: the events so far, followed by what is
      left to run, are the events of the whole. */
  ghost predicate Resumes<T>(start: seq<Event>, run: Run<T>, log: seq<Event>, rest: Run<T>) {
    run.result == rest.result && start + run.log == log + rest.log
  }

  lemma ResumesAtStart<T>(start: seq<Event>, run: Run<T>)
    ensures Resumes(start, run, start, run)
  {
  }

  lemma ResumesAfterTwo<T>(start: seq<Event>, run: Run<T>, log: seq<Event>, first: Event, second: Event, rest: Run<T>)
    requires Resumes(start, run, log, After([first, second], rest))
    ensures Resumes(start, run, log + [first] + [second], rest)
  {
    assert log + ([first, second] + rest.log) == (log + [first] + [second]) + rest.log;
  }

  lemma ResumesUntil<T>(start: seq<Event>, run: Run<T>, log: seq<Event>, rest: Run<T>)
    requires Resumes(start, run, log, rest)
    ensures run.result == rest.result
    ensures rest.log == [] ==> start + run.log == log
    ensures |rest.log| == 1 ==> start + run.log == log + [rest.log[0]]
    ensures |rest.log| == 2 ==> start + run.log == log + [rest.log[0]] + [rest.log[1]]
  {
    assert rest.log == [] ==> log + rest.log == log;
    if |rest.log| == 1 {
      assert rest.log == [rest.log[0]];
    }
    if |rest.log| == 2 {
      assert rest.log == [rest.log[0]] + [rest.log[1]];
    }
  }

  /** The client's end of the connection: it records every event and serves the next answer. */
  class Connection {
    const server: Server
    var log: seq<Event>

    constructor (server: Server)
      ensures this.server == server && log == []
    {
      this.server := server;
      log := [];
    }

    method CheckCancelled() returns (cancelled: bool)
      modifies this
      ensures cancelled == server.cancelled(|old(log)|)
      ensures log == old(log) + [Poll]
    {
      cancelled := server.cancelled(|log|);
      log := log + [Poll];
    }

    method Search(request: SearchRequest) returns (r: Result<SearchResponse, ErrorClass>)
      modifies this
      ensures r == server.search(|old(log)|, request)
      ensures log == old(log) + [Searched(request)]
    {
      r := server.search(|log|, request);
      log := log + [Searched(request)];
    }

    method Detail(id: string) returns (r: Result<AssetResponse, ErrorClass>)
      modifies this
      ensures r == server.detail(|old(log)|, id)
      ensures log == old(log) + [Fetched(id)]
    {
      r := server.detail(|log|, id);
      log := log + [Fetched(id)];
    }

    method Albums() returns (r: Result<seq<AlbumHeader>, ErrorClass>)
      modifies this
      ensures r == server.albums(|old(log)|)
      ensures log == old(log) + [ListedAlbums]
    {
      r := server.albums(|log|);
      log := log + [ListedAlbums];
    }
  }

  // ---------------------------------------------------------------- numbers

  function SaturatingNext(page: nat): nat {
    if page < U64_MAX then page + 1 else U64_MAX
  }

  predicate AllDigits(text: string) {
    forall i :: 0 <= i < |text| ==> '0' <= text[i] <= '9'
  }

  function DecimalValue(digits: string): nat
    requires AllDigits(digits)
  {
    if |digits| == 0 then 0
    else 10 * DecimalValue(digits[..|digits| - 1]) + (digits[|digits| - 1] as int - '0' as int)
  }

  /** `str::parse::<u64>`: an optional plus sign, then digits, within 64 bits. */
  function ParseU64(text: string): (r: Option<nat>)
    ensures r.Some? ==> r.value <= U64_MAX
  {
    var digits := if |text| > 0 && text[0] == '+' then text[1..] else text;
    if |digits| == 0 || !AllDigits(digits) then None
    else if DecimalValue(digits) > U64_MAX then None
    else Some(DecimalValue(digits))
  }
}
