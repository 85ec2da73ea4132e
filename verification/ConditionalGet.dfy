/**
  Conditional GETs through the cache (internal/ghclient/transport.go; sections 8.8.3,
  13.1.2 and 15.4.5 of RFC 9110): one round trip as a method over the cache, and any
  number of concurrent round trips as a step system over its specification.
*/
module ConditionalGet {
  import opened Wrappers
  import opened EtagCache

  // ---------------------------------------------------------------- one round trip

  datatype Request = Request(get: bool, url: string, path: string, ifNoneMatch: Option<string>)

  // `etag` is the trimmed header, empty when absent; reading the body may fail.
  datatype Response = Response(status: int, etag: string, body: Result<Body, string>)

  function Conditional(req: Request, c: Recency): Request {
    match Find(c, req.url)
    case Some(e) => req.(ifNoneMatch := Some(e.etag))
    case None => req
  }

  // The transport's answer to a GET whose response has arrived, with `c` the cache then.
  function Answer(c: Recency, url: string, resp: Response): Result<Response, string> {
    if resp.status == 304 then
      match Find(c, url)
      case Some(e) => Ok(Response(200, resp.etag, Ok(e.body)))
      case None => Ok(resp)
    else if resp.status == 200 && resp.etag != "" then
      match resp.body
      case Ok(b) => Ok(resp)
      case Err(e) => Err(e)
    else Ok(resp)
  }

  // The cache after that response was handled.
  function CacheAfter(c: Recency, cap: nat, url: string, path: string, resp: Response): Recency {
    if resp.status == 304 then Touched(c, url)
    else if resp.status == 200 && resp.etag != "" && resp.body.Ok? then
      Inserted(c, cap, url, Entry(resp.etag, resp.body.value, path))
    else c
  }

  // `next` is the wrapped transport.
  method RoundTrip(cache: Cache, req: Request, next: Request -> Result<Response, string>)
    returns (r: Result<Response, string>)
    requires cache.Valid()
    modifies cache, cache.order
    ensures cache.Valid()
    ensures !req.get ==>
              r == next(req)
              && cache.Contents() == if r.Ok? && 200 <= r.value.status < 300
                                     then Invalidated(old(cache.Contents()), req.path) else old(cache.Contents())
    ensures req.get ==>
              var sent := Conditional(req, old(cache.Contents()));
              var c1 := Touched(old(cache.Contents()), req.url);
              if next(sent).Err? then r == next(sent) && cache.Contents() == c1
              else
                && r == Answer(c1, req.url, next(sent).value)
                && cache.Contents() == CacheAfter(c1, cache.cap, req.url, req.path, next(sent).value)
  {
    if !req.get {
      r := next(req);
      if r.Ok? && 200 <= r.value.status < 300 {
        cache.InvalidatePath(req.path);
      }
      return;
    }
    var key := req.url;
    var sent := req;
    var cached := cache.Get(key);
    if cached.Some? {
      sent := sent.(ifNoneMatch := Some(cached.value.etag));
    }
    r := next(sent);
    if r.Err? {
      return;
    }
    var resp := r.value;
    if resp.status == 304 {
      var again := cache.Get(key);
      if again.None? {
        return;
      }
      return Ok(Response(200, resp.etag, Ok(again.value.body)));
    }
    if resp.status == 200 {
      if resp.etag != "" {
        if resp.body.Err? {
          return Err(resp.body.error);
        }
        cache.Set(key, Entry(resp.etag, resp.body.value, req.path));
      }
    }
  }

  // ---------------------------------------------------------------- concurrent round trips

  // The current representation of a resource.
  datatype Version = Version(etag: string, body: Body)

  // What one 200 response said.
  datatype Receipt = Receipt(url: string, etag: string, body: Body)

  // A GET: before its first lookup, sent, and after the origin answered. `truth` is the
  // origin's body at the moment it answered.
  datatype GetPc =
    | Begun
    | Sent(sentWith: Option<Entry>)
    | NotModified(sentWith: Option<Entry>, truth: Body)
    | Fresh(version: Version)
    | Missing
    | Returned(body: Body, truth: Body, substituted: bool)
    | Unresolved // a 304 with nothing cached, or no resource

  datatype Get = Get(url: string, path: string, pc: GetPc)

  datatype State = State(cache: Recency, origin: map<string, Version>, received: set<Receipt>, gets: map<nat, Get>)

  datatype Step =
    | Begin(id: nat, url: string, path: string)
    | Lookup(id: nat)
    | Respond(id: nat)
    | Finish(id: nat)
    | Change(curl: string, version: Option<Version>) // by anyone, through this transport or not
    | Invalidate(ipath: string)                      // after a successful write

  // An origin whose ETag identifies the body of each URL.
  ghost predicate Identifies(etags: (string, string) -> Body, s: State) {
    forall url :: url in s.origin && s.origin[url].etag != "" ==>
      s.origin[url].body == etags(url, s.origin[url].etag)
  }

  predicate Enabled(s: State, step: Step) {
    match step
    case Begin(id, _, _) => id !in s.gets
    case Lookup(id) => id in s.gets && s.gets[id].pc == Begun
    case Respond(id) => id in s.gets && s.gets[id].pc.Sent?
    case Finish(id) => id in s.gets && (s.gets[id].pc.NotModified? || s.gets[id].pc.Fresh? || s.gets[id].pc.Missing?)
    case _ => true
  }

  // The origin's answer: 304 only for a request that carries the current ETag.
  function OriginAnswer(s: State, url: string, sentWith: Option<Entry>): GetPc {
    if url !in s.origin then Missing
    else if sentWith.Some? && s.origin[url].etag == sentWith.value.etag then NotModified(sentWith, s.origin[url].body)
    else Fresh(s.origin[url])
  }

  function After(cap: nat, s: State, step: Step): State
    requires Enabled(s, step)
  {
    match step
    case Begin(id, url, path) => s.(gets := s.gets[id := Get(url, path, Begun)])
    case Lookup(id) =>
      var g := s.gets[id];
      s.(cache := Touched(s.cache, g.url), gets := s.gets[id := g.(pc := Sent(Find(s.cache, g.url)))])
    case Respond(id) =>
      var g := s.gets[id];
      var pc := OriginAnswer(s, g.url, g.pc.sentWith);
      s.(gets := s.gets[id := g.(pc := pc)],
         received := if pc.Fresh? then s.received + {Receipt(g.url, pc.version.etag, pc.version.body)} else s.received)
    case Finish(id) =>
      var g := s.gets[id];
      (match g.pc
       case NotModified(_, truth) =>
         s.(cache := Touched(s.cache, g.url),
            gets := s.gets[id := g.(pc := match Find(s.cache, g.url)
                                          case Some(e) => Returned(e.body, truth, true)
                                          case None => Unresolved)])
       case Fresh(v) =>
         s.(cache := if v.etag != "" then Inserted(s.cache, cap, g.url, Entry(v.etag, v.body, g.path)) else s.cache,
            gets := s.gets[id := g.(pc := Returned(v.body, v.body, false))])
       case _ => s.(gets := s.gets[id := g.(pc := Unresolved)]))
    case Change(url, v) => s.(origin := if v.Some? then s.origin[url := v.value] else s.origin - {url})
    case Invalidate(path) => s.(cache := Invalidated(s.cache, path))
  }

  ghost predicate StepAt(cap: nat, states: seq<State>, steps: seq<Step>, i: nat) {
    && i < |steps| && i + 1 < |states|
    && Enabled(states[i], steps[i]) && states[i + 1] == After(cap, states[i], steps[i])
  }

  ghost predicate Run(etags: (string, string) -> Body, cap: nat, states: seq<State>, steps: seq<Step>) {
    && |states| == |steps| + 1
    && states[0].cache == [] && states[0].received == {} && states[0].gets == map[]
    && (forall i :: 0 <= i < |states| ==> Identifies(etags, states[i]))
    && (forall i :: 0 <= i < |steps| ==> StepAt(cap, states, steps, i))
  }

  // ---------------------------------------------------------------- one round trip is three steps

  // The response that stands for what the origin answered.
  function ResponseOf(pc: GetPc): Response
    requires pc.NotModified? || pc.Fresh? || pc.Missing?
  {
    match pc
    case NotModified(sent, _) => Response(304, sent.GetOr(Entry("", [], "")).etag, Ok([]))
    case Fresh(v) => Response(200, v.etag, Ok(v.body))
    case Missing => Response(404, "", Ok([]))
  }

  // Alone, the three steps of a GET are one round trip: what is sent carries the ETag of the
  // entry looked up, and after the answer the cache and the body handed out are those of the
  // round trip.
  lemma StepsAreRoundTrip(cap: nat, s: State, id: nat, get: bool)
    requires id in s.gets && s.gets[id].pc == Begun
    ensures var g := s.gets[id];
            var s1 := After(cap, s, Lookup(id));
            var s2 := After(cap, s1, Respond(id));
            var s3 := After(cap, s2, Finish(id));
            var sent := Conditional(Request(get, g.url, g.path, None), s.cache);
            var resp := ResponseOf(s2.gets[id].pc);
            var answer := Answer(s1.cache, g.url, resp);
            && s1.gets[id].pc.Sent?
            && sent.url == g.url && sent.path == g.path
            && (sent.ifNoneMatch == match s1.gets[id].pc.sentWith case Some(e) => Some(e.etag) case None => None)
            && (resp.status == 304 <==> g.url in s.origin && sent.ifNoneMatch == Some(s.origin[g.url].etag))
            && s3.cache == CacheAfter(s1.cache, cap, g.url, g.path, resp)
            && answer.Ok? && (s3.gets[id].pc.Unresolved? <==> answer.value.status != 200)
            && (s3.gets[id].pc.Returned? ==> Ok(s3.gets[id].pc.body) == answer.value.body)
  {}

  // A body that cannot be read is an error, and nothing is cached then; without an ETag, or
  // with another status than 200 and 304, the response passes through and nothing is cached.
  lemma UncachedResponses(c: Recency, cap: nat, url: string, path: string, resp: Response)
    ensures Answer(c, url, resp).Err? <==> resp.status == 200 && resp.etag != "" && resp.body.Err?
    ensures Answer(c, url, resp).Err? ==> Answer(c, url, resp).error == resp.body.error
    ensures resp.status != 304 && (resp.status != 200 || resp.etag == "" || resp.body.Err?) ==>
              CacheAfter(c, cap, url, path, resp) == c
    ensures resp.status != 304 && Answer(c, url, resp).Ok? ==> Answer(c, url, resp).value == resp
    ensures resp.status == 304 && Answer(c, url, resp).Ok? ==>
              var r := Answer(c, url, resp).value;
              if Find(c, url).Some? then r.status == 200 && r.etag == resp.etag && r.body == Ok(Find(c, url).value.body)
              else r == resp
  {}

  // ---------------------------------------------------------------- the invariant

  ghost predicate WasReceived(s: State, url: string, e: Entry) {
    e.etag != "" && Receipt(url, e.etag, e.body) in s.received
  }

  ghost predicate GetOk(etags: (string, string) -> Body, s: State, g: Get) {
    match g.pc
    case Sent(e) => e.Some? ==> WasReceived(s, g.url, e.value)
    case NotModified(e, truth) => e.Some? && WasReceived(s, g.url, e.value) && truth == etags(g.url, e.value.etag)
    case Fresh(v) =>
      Receipt(g.url, v.etag, v.body) in s.received && (v.etag != "" ==> v.body == etags(g.url, v.etag))
    case Returned(body, truth, substituted) =>
      && (!substituted ==> body == truth)
      && exists etag :: Receipt(g.url, etag, body) in s.received
    case _ => true
  }

  ghost predicate Inv(etags: (string, string) -> Body, s: State) {
    && (forall key :: Find(s.cache, key).Some? ==> WasReceived(s, key, Find(s.cache, key).value))
    && (forall r :: r in s.received && r.etag != "" ==> r.body == etags(r.url, r.etag))
    && (forall id :: id in s.gets ==> GetOk(etags, s, s.gets[id]))
  }

  lemma CacheFinds(etags: (string, string) -> Body, cap: nat, s: State, step: Step, key: string)
    requires cap > 0 && Enabled(s, step) && Inv(etags, s)
    ensures var c := After(cap, s, step).cache;
            Find(c, key).Some? ==>
              Find(c, key) == Find(s.cache, key)
              || (step.Finish? && s.gets[step.id].pc.Fresh? && key == s.gets[step.id].url
                  && s.gets[step.id].pc.version.etag != ""
                  && Find(c, key).value.etag == s.gets[step.id].pc.version.etag
                  && Find(c, key).value.body == s.gets[step.id].pc.version.body)
  {
    match step {
      case Lookup(id) => TouchedFinds(s.cache, s.gets[id].url, key);
      case Finish(id) =>
        var g := s.gets[id];
        match g.pc {
          case NotModified(_, _) => TouchedFinds(s.cache, g.url, key);
          case Fresh(v) => InsertedFinds(s.cache, cap, g.url, Entry(v.etag, v.body, g.path), key);
          case _ =>
        }
      case Invalidate(path) => InvalidatedFinds(s.cache, path, key);
      case _ =>
    }
  }

  lemma InvalidatedFinds(c: Recency, path: string, key: string)
    ensures Find(Invalidated(c, path), key).Some? ==> Find(Invalidated(c, path), key) == Find(c, key)
  {
    ExcludingFinds(c, StaleKeys(c, path), key);
  }

  lemma GetOkKept(etags: (string, string) -> Body, s: State, s': State, g: Get)
    requires GetOk(etags, s, g) && s.received <= s'.received
    ensures GetOk(etags, s', g)
  {
    if g.pc.Returned? {
      var etag :| Receipt(g.url, etag, g.pc.body) in s.received;
      assert Receipt(g.url, etag, g.pc.body) in s'.received;
    }
  }

  lemma GetNext(etags: (string, string) -> Body, cap: nat, s: State, step: Step, s': State)
    requires cap > 0 && Inv(etags, s) && Identifies(etags, s)
    requires Enabled(s, step) && s' == After(cap, s, step)
    requires step.Lookup? || step.Respond? || step.Finish?
    ensures GetOk(etags, s', s'.gets[step.id])
  {
    var g := s.gets[step.id];
    assert GetOk(etags, s, g);
    if step.Finish? && g.pc.NotModified? && Find(s.cache, g.url).Some? {
      assert Receipt(g.url, Find(s.cache, g.url).value.etag, Find(s.cache, g.url).value.body) in s'.received;
    } else if step.Finish? && g.pc.Fresh? {
      assert Receipt(g.url, g.pc.version.etag, g.pc.version.body) in s'.received;
    }
  }

  lemma InvNext(etags: (string, string) -> Body, cap: nat, s: State, step: Step, s': State)
    requires cap > 0 && Inv(etags, s) && Identifies(etags, s)
    requires Enabled(s, step) && s' == After(cap, s, step)
    ensures Inv(etags, s')
  {
    forall key | Find(s'.cache, key).Some? ensures WasReceived(s', key, Find(s'.cache, key).value) {
      CacheFinds(etags, cap, s, step, key);
      if step.Finish? {
        assert GetOk(etags, s, s.gets[step.id]);
      }
    }
    if step.Lookup? || step.Respond? || step.Finish? {
      GetNext(etags, cap, s, step, s');
    }
    forall id | id in s'.gets ensures GetOk(etags, s', s'.gets[id]) {
      if id in s.gets && s'.gets[id] == s.gets[id] {
        GetOkKept(etags, s, s', s.gets[id]);
      }
    }
  }

  lemma {:induction false} RunInv(etags: (string, string) -> Body, cap: nat, states: seq<State>, steps: seq<Step>, n: nat)
    requires cap > 0 && Run(etags, cap, states, steps) && n < |states|
    ensures Inv(etags, states[n])
  {
    if n > 0 {
      RunInv(etags, cap, states, steps, n - 1);
      assert Identifies(etags, states[n - 1]);
      assert StepAt(cap, states, steps, n - 1);
      InvNext(etags, cap, states[n - 1], steps[n - 1], states[n]);
    }
  }

  // ---------------------------------------------------------------- transparency

  // In every interleaving, a body handed out in place of a 304 arrived earlier in a 200
  // for the same URL.
  lemma SubstitutedWasReceived(etags: (string, string) -> Body, cap: nat, states: seq<State>, steps: seq<Step>, n: nat,
                               id: nat)
    requires cap > 0 && Run(etags, cap, states, steps) && n < |states|
    requires id in states[n].gets && states[n].gets[id].pc.Returned?
    ensures exists etag :: Receipt(states[n].gets[id].url, etag, states[n].gets[id].pc.body) in states[n].received
  {
    RunInv(etags, cap, states, steps, n);
    assert GetOk(etags, states[n], states[n].gets[id]);
  }

  // Step i stores a 200 for the URL: a GET of it finishes on a response with an ETag.
  predicate StoresAt(states: seq<State>, steps: seq<Step>, i: nat, url: string) {
    && i < |steps| && i < |states| && steps[i].Finish? && steps[i].id in states[i].gets
    && (var g := states[i].gets[steps[i].id];
        g.url == url && g.pc.Fresh? && g.pc.version.etag != "")
  }

  function StoredAt(states: seq<State>, steps: seq<Step>, i: nat, url: string): Version
    requires StoresAt(states, steps, i, url)
  {
    states[i].gets[steps[i].id].pc.version
  }

  // Step i makes the cache forget the URL.
  predicate ForgetsAt(states: seq<State>, i: nat, url: string) {
    i + 1 < |states| && Find(states[i].cache, url).Some? && Find(states[i + 1].cache, url).None?
  }

  // The last store for the URL in steps m up to n.
  function LastStore(states: seq<State>, steps: seq<Step>, m: nat, n: nat, url: string): Option<nat>
    decreases n
  {
    if n <= m then None
    else if StoresAt(states, steps, n - 1, url) then Some(n - 1)
    else LastStore(states, steps, m, n - 1, url)
  }

  lemma {:induction false} LastStoreMeans(states: seq<State>, steps: seq<Step>, m: nat, n: nat, url: string)
    ensures match LastStore(states, steps, m, n, url)
            case None => forall i :: m <= i < n ==> !StoresAt(states, steps, i, url)
            case Some(k) => m <= k < n && StoresAt(states, steps, k, url)
                            && forall i :: k < i < n ==> !StoresAt(states, steps, i, url)
    decreases n
  {
    if m < n && !StoresAt(states, steps, n - 1, url) {
      LastStoreMeans(states, steps, m, n - 1, url);
    }
  }

  // What one step leaves under a URL: what it stores there; otherwise what was there, unless
  // it makes the cache forget it.
  lemma FoundNext(etags: (string, string) -> Body, cap: nat, states: seq<State>, steps: seq<Step>, i: nat, url: string)
    requires cap > 0 && Run(etags, cap, states, steps) && i < |steps|
    ensures var found, found' := Find(states[i].cache, url), Find(states[i + 1].cache, url);
            if StoresAt(states, steps, i, url)
            then found'.Some? && found'.value.etag == StoredAt(states, steps, i, url).etag
                 && found'.value.body == StoredAt(states, steps, i, url).body
            else if ForgetsAt(states, i, url) then found'.None?
            else found' == found
  {
    RunInv(etags, cap, states, steps, i);
    assert StepAt(cap, states, steps, i);
    CacheFinds(etags, cap, states[i], steps[i], url);
    if StoresAt(states, steps, i, url) {
      var g := states[i].gets[steps[i].id];
      InsertedFinds(states[i].cache, cap, url, Entry(g.pc.version.etag, g.pc.version.body, g.path), url);
    }
  }

  // What is found at the end of a span is what was last stored in it, or else what was found
  // at its start, unless the cache forgot it since.
  lemma {:induction false} FoundIsLastStored(etags: (string, string) -> Body, cap: nat, states: seq<State>, steps: seq<Step>,
                                             m: nat, n: nat, url: string)
    requires cap > 0 && Run(etags, cap, states, steps) && m <= n < |states|
    ensures var found, last := Find(states[n].cache, url), LastStore(states, steps, m, n, url);
            found.Some? ==>
              match last
              case None => found == Find(states[m].cache, url)
              case Some(k) => StoresAt(states, steps, k, url)
                              && found.value.etag == StoredAt(states, steps, k, url).etag
                              && found.value.body == StoredAt(states, steps, k, url).body
    decreases n
  {
    if m < n {
      FoundIsLastStored(etags, cap, states, steps, m, n - 1, url);
      FoundNext(etags, cap, states, steps, n - 1, url);
    }
  }

  // The URL was forgotten in a span and not stored again.
  ghost predicate GoneSince(states: seq<State>, steps: seq<Step>, m: nat, n: nat, url: string) {
    exists k :: m <= k < n && ForgetsAt(states, k, url) && forall i :: k < i < n ==> !StoresAt(states, steps, i, url)
  }

  // And nothing is found at its end exactly when it was forgotten and not stored again.
  lemma {:induction false} MissingIsForgotten(etags: (string, string) -> Body, cap: nat, states: seq<State>, steps: seq<Step>,
                                              m: nat, n: nat, url: string)
    requires cap > 0 && Run(etags, cap, states, steps) && m <= n < |states|
    requires Find(states[m].cache, url).Some?
    ensures Find(states[n].cache, url).None? <==> GoneSince(states, steps, m, n, url)
    decreases n
  {
    if m < n {
      MissingIsForgotten(etags, cap, states, steps, m, n - 1, url);
      FoundNext(etags, cap, states, steps, n - 1, url);
      if !StoresAt(states, steps, n - 1, url) && !ForgetsAt(states, n - 1, url) && Find(states[n - 1].cache, url).None? {
        var k :| m <= k < n - 1 && ForgetsAt(states, k, url) && forall i :: k < i < n - 1 ==> !StoresAt(states, steps, i, url);
        assert ForgetsAt(states, k, url) && forall i :: k < i < n ==> !StoresAt(states, steps, i, url);
      }
    }
  }

  // A step forgets a cached URL exactly when it is a write to a related path, or stores a
  // URL that is not cached into a full cache whose oldest entry is this one.
  lemma ForgottenExactly(etags: (string, string) -> Body, cap: nat, states: seq<State>, steps: seq<Step>, i: nat, url: string)
    requires cap > 0 && Run(etags, cap, states, steps) && i < |steps| && Find(states[i].cache, url).Some?
    ensures var c, e := states[i].cache, Find(states[i].cache, url).value;
            ForgetsAt(states, i, url) <==>
            || (steps[i].Invalidate? && CanonicalPath(steps[i].ipath) != ""
                && PathsRelated(CanonicalPath(e.path), CanonicalPath(steps[i].ipath)))
            || (steps[i].Finish? && steps[i].id in states[i].gets
                && (var other := states[i].gets[steps[i].id].url;
                    StoresAt(states, steps, i, other) && other != url
                    && Find(c, other).None? && |c| == cap && c[cap - 1].key == url))
  {
    ShapeAt(etags, cap, states, steps, i);
    assert StepAt(cap, states, steps, i);
    var s, c := states[i], states[i].cache;
    match steps[i] {
      case Lookup(id) => TouchedFinds(c, s.gets[id].url, url);
      case Invalidate(path) => InvalidatedForgets(c, path, url);
      case Finish(id) =>
        var g := s.gets[id];
        match g.pc {
          case NotModified(_, _) => TouchedFinds(c, g.url, url);
          case Fresh(v) =>
            InsertedFinds(c, cap, g.url, Entry(v.etag, v.body, g.path), url);
            if g.url != url {
              InsertedForgets(c, cap, g.url, Entry(v.etag, v.body, g.path), url);
            }
          case _ =>
        }
      case _ =>
    }
  }

  lemma {:induction false} ShapeAt(etags: (string, string) -> Body, cap: nat, states: seq<State>, steps: seq<Step>, n: nat)
    requires Run(etags, cap, states, steps) && n < |states|
    ensures Shaped(states[n].cache, cap)
  {
    if n > 0 {
      ShapeAt(etags, cap, states, steps, n - 1);
      assert StepAt(cap, states, steps, n - 1);
      var s := states[n - 1];
      match steps[n - 1] {
        case Lookup(id) => OperationsKeepShape(s.cache, cap, s.gets[id].url, Entry("", [], ""), "");
        case Finish(id) =>
          var g := s.gets[id];
          var v := if g.pc.Fresh? then g.pc.version else Version("", []);
          OperationsKeepShape(s.cache, cap, g.url, Entry(v.etag, v.body, g.path), "");
        case Invalidate(path) => OperationsKeepShape(s.cache, cap, "", Entry("", [], ""), path);
        case _ =>
      }
    }
  }

  // Between its lookup and its end a GET keeps its URL and what it sent.
  lemma {:induction false} GetKept(etags: (string, string) -> Body, cap: nat, states: seq<State>, steps: seq<Step>,
                                   m: nat, n: nat, id: nat)
    requires Run(etags, cap, states, steps) && m < n < |steps| && steps[m] == Lookup(id)
    requires id in states[n].gets && states[n].gets[id].pc.NotModified?
    ensures id in states[m].gets && states[n].gets[id].url == states[m].gets[id].url
    ensures states[n].gets[id].pc.sentWith == Find(states[m].cache, states[m].gets[id].url)
  {
    assert StepAt(cap, states, steps, m);
    SentKept(etags, cap, states, steps, m + 1, n, id);
  }

  lemma {:induction false} SentKept(etags: (string, string) -> Body, cap: nat, states: seq<State>, steps: seq<Step>,
                                    m: nat, n: nat, id: nat)
    requires Run(etags, cap, states, steps) && m <= n < |states|
    requires id in states[m].gets && states[m].gets[id].pc.Sent?
    ensures id in states[n].gets && states[n].gets[id].url == states[m].gets[id].url
    ensures var pc := states[n].gets[id].pc;
            !pc.Begun? && (pc.Sent? || pc.NotModified? ==> pc.sentWith == states[m].gets[id].pc.sentWith)
    decreases n
  {
    if m < n {
      SentKept(etags, cap, states, steps, m, n - 1, id);
      assert StepAt(cap, states, steps, n - 1);
    }
  }

  // A GET that is told 304 and finds an entry then hands out a stale body exactly when,
  // since its own lookup, another GET stored a 200 for the URL, and the last one to do so
  // brought another body than the one the origin confirmed. With nothing stored, or stored
  // last the confirmed version, the body is the one the origin had when it answered.
  lemma StaleExactly(etags: (string, string) -> Body, cap: nat, states: seq<State>, steps: seq<Step>, m: nat, n: nat, id: nat)
    requires cap > 0 && Run(etags, cap, states, steps) && m < n && StepAt(cap, states, steps, n)
    requires steps[m] == Lookup(id) && steps[n] == Finish(id)
    requires states[n].gets[id].pc.NotModified? && states[n + 1].gets[id].pc.Returned?
    ensures var url, truth := states[n].gets[id].url, states[n].gets[id].pc.truth;
            var last := LastStore(states, steps, m + 1, n, url);
            && states[n + 1].gets[id].pc.truth == truth
            && (last.Some? ==> StoresAt(states, steps, last.value, url))
            && (states[n + 1].gets[id].pc.body != truth <==>
                  last.Some? && StoredAt(states, steps, last.value, url).body != truth)
  {
    GetKept(etags, cap, states, steps, m, n, id);
    assert StepAt(cap, states, steps, n);
    assert StepAt(cap, states, steps, m);
    RunInv(etags, cap, states, steps, n);
    assert GetOk(etags, states[n], states[n].gets[id]);
    var url := states[n].gets[id].url;
    LastStoreMeans(states, steps, m + 1, n, url);
    FoundIsLastStored(etags, cap, states, steps, m + 1, n, url);
    TouchedFinds(states[m].cache, url, url);
    RunInv(etags, cap, states, steps, m);
  }

  // A GET that is told 304 ends with nothing to hand out exactly when, since its lookup, the
  // cache forgot the URL and no GET stored it again (ForgottenExactly says when it forgets).
  lemma UnresolvedExactly(etags: (string, string) -> Body, cap: nat, states: seq<State>, steps: seq<Step>, m: nat, n: nat, id: nat)
    requires cap > 0 && Run(etags, cap, states, steps) && m < n && StepAt(cap, states, steps, n)
    requires steps[m] == Lookup(id) && steps[n] == Finish(id) && states[n].gets[id].pc.NotModified?
    ensures states[n + 1].gets[id].pc.Unresolved? <==> GoneSince(states, steps, m + 1, n, states[n].gets[id].url)
    ensures !states[n + 1].gets[id].pc.Unresolved? ==> states[n + 1].gets[id].pc.Returned?
  {
    GetKept(etags, cap, states, steps, m, n, id);
    assert StepAt(cap, states, steps, n);
    assert StepAt(cap, states, steps, m);
    RunInv(etags, cap, states, steps, n);
    assert GetOk(etags, states[n], states[n].gets[id]);
    var url := states[n].gets[id].url;
    TouchedFinds(states[m].cache, url, url);
    MissingIsForgotten(etags, cap, states, steps, m + 1, n, url);
  }

  // Transparency: after any history, whatever else uses the cache, a GET during which no
  // other GET stores its URL never hands out a stale body, whether it is told 200 or 304;
  // and if the cache does not forget the URL meanwhile either, it does return the body.
  lemma Transparent(etags: (string, string) -> Body, cap: nat, states: seq<State>, steps: seq<Step>, m: nat, n: nat, id: nat)
    requires cap > 0 && Run(etags, cap, states, steps) && m < n && StepAt(cap, states, steps, n)
    requires steps[m] == Lookup(id) && steps[n] == Finish(id) && !states[n].gets[id].pc.Missing?
    requires forall i :: m < i < n ==> !StoresAt(states, steps, i, states[n].gets[id].url)
    ensures var pc := states[n + 1].gets[id].pc;
            && (pc.Returned? ==> pc.body == pc.truth)
            && (states[n].gets[id].pc.NotModified? && pc.Returned? ==> pc.truth == states[n].gets[id].pc.truth)
            && ((forall i :: m < i < n ==> !ForgetsAt(states, i, states[n].gets[id].url)) ==> pc.Returned?)
  {
    assert StepAt(cap, states, steps, n);
    if states[n].gets[id].pc.NotModified? {
      UnresolvedExactly(etags, cap, states, steps, m, n, id);
      LastStoreMeans(states, steps, m + 1, n, states[n].gets[id].url);
      if states[n + 1].gets[id].pc.Returned? {
        StaleExactly(etags, cap, states, steps, m, n, id);
      }
    }
  }

  // ---------------------------------------------------------------- without that condition

  // Any enabled step extends a run.
  lemma RunExtends(etags: (string, string) -> Body, cap: nat, states: seq<State>, steps: seq<Step>, step: Step)
    requires Run(etags, cap, states, steps) && Enabled(states[|steps|], step)
    requires Identifies(etags, After(cap, states[|steps|], step))
    ensures Run(etags, cap, states + [After(cap, states[|steps|], step)], steps + [step])
  {
    var ss, ts := states + [After(cap, states[|steps|], step)], steps + [step];
    forall i | 0 <= i < |ts| ensures StepAt(cap, ss, ts, i) {
      if i < |steps| { assert StepAt(cap, states, steps, i); }
    }
  }

  const FIRST := Version("1", [1 as bv8])
  const SECOND := Version("2", [2 as bv8])

  // The bodies of an origin that has these two versions.
  ghost function TwoBodies(url: string, etag: string): Body {
    if etag == "1" then FIRST.body else SECOND.body
  }

  // One more step of the run below, which is about one URL.
  lemma Play(states: seq<State>, steps: seq<Step>, step: Step) returns (states': seq<State>, steps': seq<Step>)
    requires Run(TwoBodies, 1, states, steps) && Enabled(states[|steps|], step)
    requires step.Change? ==> step.version == Some(FIRST) || step.version == Some(SECOND)
    ensures Run(TwoBodies, 1, states', steps') && |steps'| == |steps| + 1
    ensures states'[|steps'|] == After(1, states[|steps|], step)
    ensures steps' == steps + [step]
  {
    assert Identifies(TwoBodies, states[|steps|]);
    RunExtends(TwoBodies, 1, states, steps, step);
    states', steps' := states + [After(1, states[|steps|], step)], steps + [step];
  }

  const URL: string := "/r"
  const SLOW := Get(URL, URL, Fresh(FIRST))
  const QUICK := Get(URL, URL, Returned(SECOND.body, SECOND.body, false))
  const STALE_ITEM := Item(URL, Entry("1", FIRST.body, URL))
  const CURRENT_ITEM := Item(URL, Entry("2", SECOND.body, URL))
  const RECEIPTS := {Receipt(URL, "1", FIRST.body), Receipt(URL, "2", SECOND.body)}

  // The first GET has the first version in hand and has not stored it.
  lemma SlowGet() returns (states: seq<State>, steps: seq<Step>)
    ensures Run(TwoBodies, 1, states, steps)
    ensures states[|steps|] == State([], map[URL := SECOND], {Receipt(URL, "1", FIRST.body)}, map[0 := SLOW])
  {
    states, steps := [State([], map[], {}, map[])], [];
    states, steps := Play(states, steps, Change(URL, Some(FIRST)));
    states, steps := Play(states, steps, Begin(0, URL, URL));
    states, steps := Play(states, steps, Lookup(0));
    states, steps := Play(states, steps, Respond(0));
    states, steps := Play(states, steps, Change(URL, Some(SECOND)));
  }

  // A second GET stores the second version.
  lemma QuickGet() returns (states: seq<State>, steps: seq<Step>)
    ensures Run(TwoBodies, 1, states, steps)
    ensures states[|steps|] == State([CURRENT_ITEM], map[URL := SECOND], RECEIPTS, map[0 := SLOW, 1 := QUICK])
  {
    states, steps := SlowGet();
    states, steps := Play(states, steps, Begin(1, URL, URL));
    states, steps := Play(states, steps, Lookup(1));
    states, steps := Play(states, steps, Respond(1));
    states, steps := Play(states, steps, Finish(1));
  }

  lemma TouchAlone(item: Item)
    ensures Touched([item], item.key) == [item]
  {
    assert Excluding([item], {item.key}) == Excluding([], {item.key});
  }

  // A third GET is told that the second version is still current.
  lemma ThirdGet() returns (states: seq<State>, steps: seq<Step>)
    ensures Run(TwoBodies, 1, states, steps)
    ensures states[|steps|] ==
            State([CURRENT_ITEM], map[URL := SECOND], RECEIPTS,
                  map[0 := SLOW, 1 := QUICK, 2 := Get(URL, URL, NotModified(Some(CURRENT_ITEM.value), SECOND.body))])
  {
    states, steps := QuickGet();
    states, steps := Play(states, steps, Begin(2, URL, URL));
    TouchAlone(CURRENT_ITEM);
    states, steps := Play(states, steps, Lookup(2));
    assert states[|steps|].cache == [CURRENT_ITEM];
    assert states[|steps|].gets[2].pc == Sent(Some(CURRENT_ITEM.value));
    states, steps := Play(states, steps, Respond(2));
    assert states[|steps|].received == RECEIPTS;
  }

  // Then the first GET stores the first version, and the third one hands it out: its body
  // is not the one the origin had when it answered.
  lemma StaleSubstitute() returns (states: seq<State>, steps: seq<Step>)
    ensures Run(TwoBodies, 1, states, steps)
    ensures 2 in states[|steps|].gets
    ensures states[|steps|].gets[2].pc == Returned(FIRST.body, SECOND.body, true)
    ensures FIRST.body != SECOND.body
  {
    states, steps := ThirdGet();
    states, steps := Play(states, steps, Finish(0));
    assert states[|steps|].cache == [STALE_ITEM];
    states, steps := Play(states, steps, Finish(2));
    assert FIRST.body[0] != SECOND.body[0];
  }
}
