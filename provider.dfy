/**
 * `LinkPreviewProvider`: an ordered registry of processor types and the loading
 * pipeline, which fetches a page, parses it and runs every registered processor that
 * applies to the URL, in registry order, on one preview.
 */
module Provider {
  import opened Wrappers
  import opened Text
  import opened Urls
  import opened UrlExtensions
  import opened Dom
  import opened Metadata
  import opened Previews
  import opened Processing
  import OpenGraphProcessor
  import GenericHTMLProcessor
  import WikipediaAPIProcessor

  /** A processor type, compared by `ObjectIdentifier`: the three built-in ones, or a client's own. */
  datatype ProcessorId = OpenGraph | GenericHTML | Wikipedia | Custom(id: nat)

  /** `defaultProcessors`. */
  const DefaultProcessors: seq<ProcessorId> := [OpenGraph, GenericHTML, Wikipedia]

  predicate NoDuplicates(xs: seq<ProcessorId>)
  {
    forall i, j :: 0 <= i < j < |xs| ==> xs[i] != xs[j]
  }

  /** `xs` is `ys` with some elements left out, the rest in their order. */
  predicate Subsequence(xs: seq<ProcessorId>, ys: seq<ProcessorId>)
  {
    if xs == [] then true
    else if ys == [] then false
    else if xs[0] == ys[0] then Subsequence(xs[1..], ys[1..])
    else Subsequence(xs, ys[1..])
  }

  /** `registerProcessor`: an identity already present changes nothing; a new one goes at the end. */
  function Registered(xs: seq<ProcessorId>, p: ProcessorId): (r: seq<ProcessorId>)
    ensures p in r
    ensures |xs| <= |r| && r[..|xs|] == xs
    ensures |r| == if p in xs then |xs| else |xs| + 1
  {
    if p in xs then xs else xs + [p]
  }

  /** `firstIndex(where:)` for one identity. */
  function FirstIndex(xs: seq<ProcessorId>, p: ProcessorId): (r: Option<nat>)
    ensures r.Some? <==> p in xs
    ensures r.Some? ==> r.value < |xs| && xs[r.value] == p && p !in xs[..r.value]
  {
    if xs == [] then None
    else if xs[0] == p then Some(0)
    else
      match FirstIndex(xs[1..], p)
      case Some(i) =>
        assert xs[1..][..i] == xs[1..i + 1];
        assert xs[..i + 1] == [xs[0]] + xs[1..i + 1];
        Some(i + 1)
      case None => None
  }

  /** `unregisterProcessor`: an absent identity changes nothing; otherwise its first occurrence goes. */
  function Unregistered(xs: seq<ProcessorId>, p: ProcessorId): (r: seq<ProcessorId>)
    ensures p !in xs ==> r == xs
    ensures p in xs ==> |r| == |xs| - 1
    ensures multiset(r) == multiset(xs) - multiset{p}
  {
    match FirstIndex(xs, p)
    case None =>
      assert multiset(xs)[p] == 0;
      xs
    case Some(i) =>
      assert xs == xs[..i] + [xs[i]] + xs[i + 1..];
      xs[..i] + xs[i + 1..]
  }

  /** Registering keeps a registry free of duplicates. */
  lemma RegisteredKeepsDistinct(xs: seq<ProcessorId>, p: ProcessorId)
    requires NoDuplicates(xs)
    ensures NoDuplicates(Registered(xs, p))
  {
    if p !in xs {
      var r := xs + [p];
      forall i, j | 0 <= i < j < |r|
        ensures r[i] != r[j]
      {
        if j == |xs| {
          assert r[i] == xs[i];
        }
      }
    }
  }

  /** Registering twice is registering once. */
  lemma RegisterIdempotent(xs: seq<ProcessorId>, p: ProcessorId)
    ensures Registered(Registered(xs, p), p) == Registered(xs, p)
  {
  }

  /** Removing one element of a duplicate-free sequence keeps it duplicate-free. */
  lemma RemovalKeepsDistinct(xs: seq<ProcessorId>, i: nat)
    requires i < |xs| && NoDuplicates(xs)
    ensures NoDuplicates(xs[..i] + xs[i + 1..])
  {
    var r := xs[..i] + xs[i + 1..];
    forall a, b | 0 <= a < b < |r|
      ensures r[a] != r[b]
    {
      var a' := if a < i then a else a + 1;
      var b' := if b < i then b else b + 1;
      assert r[a] == xs[a'] && r[b] == xs[b'];
    }
  }

  /** Unregistering keeps a registry free of duplicates and leaves the identity absent. */
  lemma UnregisteredKeepsDistinct(xs: seq<ProcessorId>, p: ProcessorId)
    requires NoDuplicates(xs)
    ensures NoDuplicates(Unregistered(xs, p))
    ensures p !in Unregistered(xs, p)
  {
    match FirstIndex(xs, p)
    case None =>
    case Some(i) =>
      RemovalKeepsDistinct(xs, i);
  }

  lemma {:induction false} SubsequenceOfSelf(xs: seq<ProcessorId>)
    ensures Subsequence(xs, xs)
  {
    if xs != [] {
      SubsequenceOfSelf(xs[1..]);
    }
  }

  /** Dropping the first element leaves a subsequence. */
  lemma {:induction false} DropHeadIsSubsequence(ys: seq<ProcessorId>)
    requires ys != []
    ensures Subsequence(ys[1..], ys)
  {
    if ys[1..] != [] {
      if ys[1..][0] == ys[0] {
        DropHeadIsSubsequence(ys[1..]);
        assert ys[1..][1..] == ys[2..];
      } else {
        SubsequenceOfSelf(ys[1..]);
      }
    }
  }

  /** Dropping the element at `i` leaves a subsequence. */
  lemma {:induction false} RemovalIsSubsequence(xs: seq<ProcessorId>, i: nat)
    requires i < |xs|
    ensures Subsequence(xs[..i] + xs[i + 1..], xs)
  {
    if i == 0 {
      assert xs[..0] + xs[1..] == xs[1..];
      DropHeadIsSubsequence(xs);
    } else {
      RemovalIsSubsequence(xs[1..], i - 1);
      var r := xs[..i] + xs[i + 1..];
      assert r[0] == xs[0];
      assert r[1..] == xs[1..][..i - 1] + xs[1..][i..];
    }
  }

  /** Unregistering keeps the other identities in their order. */
  lemma UnregisterKeepsOrder(xs: seq<ProcessorId>, p: ProcessorId)
    ensures Subsequence(Unregistered(xs, p), xs)
  {
    match FirstIndex(xs, p)
    case None => SubsequenceOfSelf(xs);
    case Some(i) => RemovalIsSubsequence(xs, i);
  }

  /** Registering a new identity and unregistering it again restores the registry. */
  lemma RegisterThenUnregister(xs: seq<ProcessorId>, p: ProcessorId)
    requires p !in xs
    ensures Unregistered(Registered(xs, p), p) == xs
  {
    var r := xs + [p];
    assert r[..|xs|] == xs;
    assert FirstIndex(r, p) == Some(|xs|);
  }

  /** The default registry: OpenGraph, then generic HTML, then Wikipedia, with no duplicates. */
  lemma DefaultRegistry()
    ensures NoDuplicates(DefaultProcessors)
    ensures DefaultProcessors[0] == OpenGraph && DefaultProcessors[1] == GenericHTML && DefaultProcessors[2] == Wikipedia
  {
  }

  /** `URLRequest`: its URL and its header fields. */
  datatype Request = Request(url: Option<Url>, headers: map<string, string>)

  /** What `urlSession.data(for:)` returns: whether it is an `HTTPURLResponse`, then its status, URL and body text. */
  datatype Response = Response(isHTTP: bool, statusCode: int, url: Option<Url>, body: string)

  /** How `load` fails: a thrown error of the session or the parser, or the error cases `invalidResponse` and `unsuccessfulHTTPStatus`. */
  datatype LoadError = Thrown | InvalidResponse | UnsuccessfulHTTPStatus(statusCode: int)

  /** What the provider consults: Foundation, the network, the processors' activation and client processors, the parser and the session. */
  datatype Environment = Environment(
    foundation: Foundation,
    network: Network,
    /** `processor.applies(to: url)` */
    applies: (ProcessorId, Url) -> bool,
    /** a client processor's `updateLinkPreview` */
    custom: (nat, LinkPreview, Url, Document, Options) -> Outcome,
    /** `SwiftSoup.parse(html, baseURI)`, nil when it throws */
    parseHtml: (string, string) -> Option<Document>,
    /** `urlSession.data(for:)`, nil when it throws */
    fetch: Request -> Option<Response>)

  /** One processor's `updateLinkPreview` on the shared preview. */
  function Step(env: Environment, id: ProcessorId, preview: LinkPreview, url: Url, doc: Document, options: Options): Outcome
  {
    match id
    case OpenGraph => Outcome(OpenGraphProcessor.Updated(preview, Some(doc)), [])
    case GenericHTML => GenericHTMLProcessor.Updated(env.foundation, env.network, preview, url, doc, options)
    case Wikipedia => WikipediaAPIProcessor.Updated(env.foundation, env.network, preview, url, Some(doc), options)
    case Custom(n) => env.custom(n, preview, url, doc, options)
  }

  /**
   * The loop of `load(html:url:)` over any processors: `ids` in order, each run through
   * `run` on the preview so far if `applies` holds for it, its requests appended.
   */
  function RunSteps(run: (ProcessorId, LinkPreview) -> Outcome, applies: ProcessorId -> bool,
                    ids: seq<ProcessorId>, start: LinkPreview): Outcome
  {
    if ids == [] then Outcome(start, [])
    else
      var before := RunSteps(run, applies, ids[..|ids| - 1], start);
      var id := ids[|ids| - 1];
      if applies(id) then
        var step := run(id, before.preview);
        Outcome(step.preview, before.requests + step.requests)
      else before
  }

  /** The processors of `ids` for which `applies` holds, in order. */
  function Applying(applies: ProcessorId -> bool, ids: seq<ProcessorId>): (r: seq<ProcessorId>)
    ensures forall i :: 0 <= i < |r| ==> applies(r[i]) && r[i] in ids
  {
    if ids == [] then []
    else
      var rest := Applying(applies, ids[..|ids| - 1]);
      var id := ids[|ids| - 1];
      if applies(id) then rest + [id] else rest
  }

  /** Running the registry is running only the processors that apply, in the same order. */
  lemma {:induction false} RunStepsSkipsInapplicable(run: (ProcessorId, LinkPreview) -> Outcome, applies: ProcessorId -> bool,
                                                     ids: seq<ProcessorId>, start: LinkPreview)
    ensures RunSteps(run, applies, ids, start) == RunSteps(run, applies, Applying(applies, ids), start)
  {
    if ids != [] {
      var prefix := ids[..|ids| - 1];
      RunStepsSkipsInapplicable(run, applies, prefix, start);
      var id := ids[|ids| - 1];
      if applies(id) {
        var a := Applying(applies, prefix) + [id];
        assert a[..|a| - 1] == Applying(applies, prefix);
      }
    }
  }

  /** Running `xs + ys` is running `ys` on what `xs` left, with the requests in order. */
  lemma {:induction false} RunStepsAppend(run: (ProcessorId, LinkPreview) -> Outcome, applies: ProcessorId -> bool,
                                          xs: seq<ProcessorId>, ys: seq<ProcessorId>, start: LinkPreview)
    ensures var first := RunSteps(run, applies, xs, start);
            var second := RunSteps(run, applies, ys, first.preview);
            RunSteps(run, applies, xs + ys, start) == Outcome(second.preview, first.requests + second.requests)
  {
    if ys == [] {
      assert xs + ys == xs;
    } else {
      var ys' := ys[..|ys| - 1];
      RunStepsAppend(run, applies, xs, ys', start);
      var all := xs + ys;
      assert all[..|all| - 1] == xs + ys';
      var id := ys[|ys| - 1];
      if applies(id) {
        var first := RunSteps(run, applies, xs, start);
        var middle := RunSteps(run, applies, ys', first.preview);
        var step := run(id, middle.preview);
        assert (first.requests + middle.requests) + step.requests == first.requests + (middle.requests + step.requests);
      }
    }
  }

  /** The loop of `load(html:url:)` with the processors of this model, on the parsed document. */
  function RunAll(env: Environment, ids: seq<ProcessorId>, start: LinkPreview, url: Url, doc: Document, options: Options): Outcome
  {
    RunSteps((id, p) => Step(env, id, p, url, doc, options), id => env.applies(id, url), ids, start)
  }

  /** What `load(html:url:)` returns: the parse fails, or the processors run from an empty preview bound to `url`. */
  function LoadedHtml(env: Environment, processors: seq<ProcessorId>, options: Options, html: string, url: Url): (r: Result<Outcome, LoadError>)
    ensures r.Failure? <==> env.parseHtml(html, url.absoluteString).None?
    ensures r.Failure? ==> r.error == Thrown
  {
    match env.parseHtml(html, url.absoluteString)
    case None => Failure(Thrown)
    case Some(doc) => Success(RunAll(env, processors, EmptyPreview(url), url, doc, options))
  }

  /** The `User-Agent` sent when the request sets none. */
  const DefaultUserAgent := "facebookexternalhit/1.1 Facebot Twitterbot/1.0"

  /** `setValueIfNotSet(_:forHTTPHeaderField: "User-Agent")`; header names compare ignoring case. */
  function WithDefaultUserAgent(request: Request): (r: Request)
    ensures r.url == request.url
  {
    if exists k :: k in request.headers && EqualsIgnoringCase(k, "User-Agent") then request
    else request.(headers := request.headers["User-Agent" := DefaultUserAgent])
  }

  /** `(200..<299).contains(statusCode)`: a 2xx status other than 299. */
  function StatusAccepted(statusCode: int): (r: bool)
    ensures r <==> statusCode / 100 == 2 && statusCode != 299
  {
    200 <= statusCode < 299
  }

  /** The accepted range runs from 200 to 298: 299 is rejected, as are 199 and 300. */
  lemma AcceptedStatusRange()
    ensures StatusAccepted(200) && StatusAccepted(298)
    ensures !StatusAccepted(199) && !StatusAccepted(299) && !StatusAccepted(300)
  {
  }

  /**
   * `request.url!` is reached only after an accepted HTTP response without a URL; the
   * request must then have one.
   */
  predicate HasPageUrl(env: Environment, request: Request)
  {
    match env.fetch(WithDefaultUserAgent(request))
    case Some(response) => response.isHTTP && StatusAccepted(response.statusCode) && response.url.None? ==> request.url.Some?
    case None => true
  }

  /** What `load(with:)` returns. */
  function LoadedWith(env: Environment, processors: seq<ProcessorId>, options: Options, request: Request): (r: Result<Outcome, LoadError>)
    requires HasPageUrl(env, request)
    ensures var answer := env.fetch(WithDefaultUserAgent(request));
            && (answer.None? ==> r == Failure(Thrown))
            && (answer.Some? && !answer.value.isHTTP ==> r == Failure(InvalidResponse))
            && (answer.Some? && answer.value.isHTTP && StatusAccepted(answer.value.statusCode) ==>
                  r == LoadedHtml(env, processors, options, answer.value.body, answer.value.url.OrElse(request.url).value))
  {
    match env.fetch(WithDefaultUserAgent(request))
    case None => Failure(Thrown)
    case Some(response) =>
      if !response.isHTTP then Failure(InvalidResponse)
      else if !StatusAccepted(response.statusCode) then Failure(UnsuccessfulHTTPStatus(response.statusCode))
      else LoadedHtml(env, processors, options, response.body, response.url.OrElse(request.url).value)
  }

  /**
   * `load(with:)` fails with the status exactly when the session answers an HTTP
   * response outside 200..<299, and runs the processors only on an accepted one.
   */
  lemma LoadedWithStatus(env: Environment, processors: seq<ProcessorId>, options: Options, request: Request)
    requires HasPageUrl(env, request)
    ensures var r := LoadedWith(env, processors, options, request);
            var answer := env.fetch(WithDefaultUserAgent(request));
            && (r.Failure? && r.error.UnsuccessfulHTTPStatus? <==>
                  answer.Some? && answer.value.isHTTP && !StatusAccepted(answer.value.statusCode))
            && (r.Success? ==> answer.Some? && answer.value.isHTTP && StatusAccepted(answer.value.statusCode))
            && (r.Failure? && r.error.UnsuccessfulHTTPStatus? ==> r.error.statusCode == answer.value.statusCode)
  {
  }

  /** One processor's `updateLinkPreview`, dispatched on its type. */
  method RunProcessor(env: Environment, id: ProcessorId, preview: LinkPreview, url: Url, doc: Document, options: Options)
    returns (r: LinkPreview, requests: seq<string>)
    ensures Outcome(r, requests) == Step(env, id, preview, url, doc, options)
  {
    match id
    case OpenGraph =>
      r := OpenGraphProcessor.UpdateLinkPreview(preview, Some(doc));
      requests := [];
    case GenericHTML =>
      r, requests := GenericHTMLProcessor.UpdateLinkPreview(env.foundation, env.network, preview, url, doc, options);
    case Wikipedia =>
      r, requests := WikipediaAPIProcessor.UpdateLinkPreview(env.foundation, env.network, preview, url, Some(doc), options);
    case Custom(n) =>
      var outcome := env.custom(n, preview, url, doc, options);
      r := outcome.preview;
      requests := outcome.requests;
  }

  class LinkPreviewProvider {
    var registeredProcessors: seq<ProcessorId>
    var options: Options

    ghost predicate Valid()
      reads this
    {
      NoDuplicates(registeredProcessors)
    }

    /** `init(urlSession:)`: the default processors and the default options. */
    constructor ()
      ensures registeredProcessors == DefaultProcessors && options == DefaultOptions
      ensures Valid()
    {
      registeredProcessors := DefaultProcessors;
      options := DefaultOptions;
    }

    /** `registerProcessor(_:)`. */
    method RegisterProcessor(p: ProcessorId)
      modifies this
      ensures registeredProcessors == Registered(old(registeredProcessors), p)
      ensures options == old(options)
      ensures old(Valid()) ==> Valid()
    {
      if old(Valid()) {
        RegisteredKeepsDistinct(registeredProcessors, p);
      }
      if p in registeredProcessors {
        return;
      }
      registeredProcessors := registeredProcessors + [p];
    }

    /** `unregisterProcessor(_:)`. */
    method UnregisterProcessor(p: ProcessorId)
      modifies this
      ensures registeredProcessors == Unregistered(old(registeredProcessors), p)
      ensures options == old(options)
      ensures old(Valid()) ==> Valid() && p !in registeredProcessors
    {
      if old(Valid()) {
        UnregisteredKeepsDistinct(registeredProcessors, p);
      }
      var index := FirstIndex(registeredProcessors, p);
      if index.None? {
        return;
      }
      registeredProcessors := registeredProcessors[..index.value] + registeredProcessors[index.value + 1..];
    }

    /** `load(html:url:)`: parse, then run the registered processors that apply, in order. */
    method LoadHtml(env: Environment, html: string, url: Url) returns (r: Result<Outcome, LoadError>)
      ensures r == LoadedHtml(env, registeredProcessors, options, html, url)
    {
      var preview := EmptyPreview(url);
      var requests: seq<string> := [];
      var document := env.parseHtml(html, url.absoluteString);
      if document.None? {
        return Failure(Thrown);
      }
      var processors := registeredProcessors;
      for i := 0 to |processors|
        invariant Outcome(preview, requests) == RunAll(env, processors[..i], EmptyPreview(url), url, document.value, options)
      {
        assert processors[..i + 1][..i] == processors[..i];
        var processor := processors[i];
        if !env.applies(processor, url) {
          continue;
        }
        var made;
        preview, made := RunProcessor(env, processor, preview, url, document.value, options);
        requests := requests + made;
      }
      assert processors[..|processors|] == processors;
      r := Success(Outcome(preview, requests));
    }

    /** `load(with:)`: send the request with a default `User-Agent`, check the response, then `load(html:url:)`. */
    method LoadWith(env: Environment, request: Request) returns (r: Result<Outcome, LoadError>)
      requires HasPageUrl(env, request)
      ensures r == LoadedWith(env, registeredProcessors, options, request)
    {
      var sent := WithDefaultUserAgent(request);
      var answer := env.fetch(sent);
      if answer.None? {
        return Failure(Thrown);
      }
      var httpResponse := answer.value;
      if !httpResponse.isHTTP {
        return Failure(InvalidResponse);
      }
      if !StatusAccepted(httpResponse.statusCode) {
        return Failure(UnsuccessfulHTTPStatus(httpResponse.statusCode));
      }
      var html := httpResponse.body;
      var url := httpResponse.url.OrElse(sent.url).value;
      r := LoadHtml(env, html, url);
    }
  }
}
