/**
 The request gates of utils.py: the upload's file-name extension check, the
 token check of the `authenticate` decorator, and the sliding-window
 limiter of the `rate_limit` decorator. Time is a whole number of seconds;
 RATE_LIMIT and RATE_LIMIT_WINDOW are the limiter's construction parameters.
 */
module Utils {
  import opened PyStr

  // ---------------------------------------------------------------------------
  // allowed_file

  /** ALLOWED_EXTENSIONS of config.py. */
  const AllowedExtensions: set<string> := {"png", "jpg", "jpeg"}

  /** `i` is the position of the last '.' in `s`. */
  predicate LastDotAt(s: string, i: int) {
    0 <= i < |s| && s[i] == '.' && forall j :: i < j < |s| ==> s[j] != '.'
  }

  function LastDot(s: string): (r: Option<nat>)
    ensures r.Some? ==> LastDotAt(s, r.value)
    ensures r.None? <==> '.' !in s
  {
    if s == [] then None
    else if s[|s| - 1] == '.' then Some(|s| - 1)
    else
      var r := LastDot(s[..|s| - 1]);
      assert forall c :: c in s[..|s| - 1] ==> c in s;
      assert forall j :: 0 <= j < |s| - 1 ==> s[j] == s[..|s| - 1][j];
      r
  }

  /** `'.' in filename and filename.rsplit('.', 1)[1].lower() in ALLOWED_EXTENSIONS`. */
  function AllowedFile(filename: string): (r: bool)
    ensures r <==> exists i :: LastDotAt(filename, i) && Lower(filename[i + 1..]) in AllowedExtensions
  {
    match LastDot(filename)
    case None => false
    case Some(i) => Lower(filename[i + 1..]) in AllowedExtensions
  }

  /** A file name made of a stem, a '.' and a dot-free extension is allowed
      exactly when the extension, lower-cased, is an allowed one, whatever the
      stem holds. */
  lemma AllowedFileByExtension(stem: string, ext: string)
    requires '.' !in ext
    ensures AllowedFile(stem + "." + ext) <==> Lower(ext) in AllowedExtensions
  {
    var f := stem + "." + ext;
    var i := |stem|;
    assert f[i] == '.';
    assert forall j :: i < j < |f| ==> f[j] == ext[j - i - 1];
    assert LastDotAt(f, i);
    assert f[i + 1..] == ext;
  }

  // ---------------------------------------------------------------------------
  // authenticate

  datatype AuthDecision = Proceed | Reject(status: int, message: string)

  /** The decision of `authenticate` for the header's token (None when the
      header is absent) against AUTH_TOKEN. */
  function Authenticate(token: Option<string>, authToken: string): (d: AuthDecision)
    ensures d == Reject(401, "Authentication required") <==> token.None? || token.value == ""
    ensures d == Reject(401, "Invalid authentication token") <==> token.Some? && token.value != "" && token.value != authToken
    ensures d.Proceed? <==> token == Some(authToken) && authToken != ""
  {
    if token.None? || token.value == "" then Reject(401, "Authentication required")
    else if token.value != authToken then Reject(401, "Invalid authentication token")
    else Proceed
  }

  // ---------------------------------------------------------------------------
  // rate_limit

  /** `[t for t in ts if now - t < window]`. */
  function Recent(ts: seq<int>, now: int, window: int): (r: seq<int>)
    ensures |r| <= |ts|
    ensures forall i :: 0 <= i < |r| ==> now - r[i] < window
  {
    if ts == [] then []
    else (if now - ts[0] < window then [ts[0]] else []) + Recent(ts[1..], now, window)
  }

  /** A timestamp survives pruning exactly when it was stored and is recent. */
  lemma {:induction false} RecentMembers(ts: seq<int>, now: int, window: int, t: int)
    ensures t in Recent(ts, now, window) <==> t in ts && now - t < window
  {
    if ts != [] {
      RecentMembers(ts[1..], now, window, t);
      assert ts == [ts[0]] + ts[1..];
    }
  }

  /** Pruning keeps the survivors in their order: it distributes over concatenation. */
  lemma {:induction false} RecentAppend(a: seq<int>, b: seq<int>, now: int, window: int)
    ensures Recent(a + b, now, window) == Recent(a, now, window) + Recent(b, now, window)
  {
    if a != [] {
      assert (a + b)[1..] == a[1..] + b;
      RecentAppend(a[1..], b, now, window);
    } else {
      assert a + b == b;
    }
  }

  /** Pruning at a time, then at the same or a later time, is pruning at the later time. */
  lemma {:induction false} RecentLater(ts: seq<int>, earlier: int, later: int, window: int)
    requires earlier <= later
    ensures Recent(Recent(ts, earlier, window), later, window) == Recent(ts, later, window)
  {
    if ts != [] {
      RecentLater(ts[1..], earlier, later, window);
      var rest := Recent(ts[1..], earlier, window);
      if earlier - ts[0] < window {
        var kept := [ts[0]] + rest;
        assert Recent(ts, earlier, window) == kept;
        assert kept[0] == ts[0] && kept[1..] == rest;
        assert Recent(kept, later, window) == (if later - ts[0] < window then [ts[0]] else []) + Recent(rest, later, window);
      } else {
        assert Recent(ts, earlier, window) == rest;
      }
    }
  }

  function Get(history: map<string, seq<int>>, client: string): seq<int> {
    if client in history then history[client] else []
  }

  /** The module-level `request_history` with its limit and window. */
  class RateLimiter {
    const limit: int
    const window: int
    var history: map<string, seq<int>>

    /** With a non-negative limit, no client ever holds more than `limit` timestamps. */
    ghost predicate Valid()
      reads this
    {
      limit >= 0 ==> forall client :: client in history ==> |history[client]| <= limit
    }

    constructor (limit: int, window: int)
      ensures this.limit == limit && this.window == window
      ensures history == map[]
      ensures Valid()
    {
      this.limit := limit;
      this.window := window;
      history := map[];
    }

    /** Lines 86 to 88: every stored list is replaced by its recent part. */
    method Prune(now: int)
      requires Valid()
      modifies this
      ensures Valid()
      ensures history.Keys == old(history).Keys
      ensures forall client :: client in history ==> history[client] == Recent(old(history)[client], now, window)
      ensures forall client, i :: client in history && 0 <= i < |history[client]| ==> now - history[client][i] < window
    {
      var pending := history.Keys;
      while pending != {}
        invariant pending <= history.Keys
        invariant history.Keys == old(history).Keys
        invariant forall client :: client in history ==>
          history[client] == if client in pending then old(history)[client] else Recent(old(history)[client], now, window)
        decreases pending
      {
        var key :| key in pending;
        history := history[key := Recent(history[key], now, window)];
        pending := pending - {key};
      }
    }

    /** The `rate_limit` decorator for one request: prune every client's
        history, refuse (429) when this client's pruned history already holds
        `limit` entries, otherwise record `now` and let the request through. */
    method Admit(client: string, now: int) returns (allowed: bool)
      requires Valid()
      modifies this
      ensures Valid()
      ensures allowed <==> |Recent(Get(old(history), client), now, window)| < limit
      ensures history.Keys == old(history).Keys + (if allowed then {client} else {})
      ensures forall other :: other in old(history) && other != client ==>
        history[other] == Recent(old(history)[other], now, window)
      ensures allowed ==> history[client] == Recent(Get(old(history), client), now, window) + [now]
      ensures !allowed && client in old(history) ==> history[client] == Recent(old(history)[client], now, window)
    {
      Prune(now);
      var clientHistory := Get(history, client);
      if |clientHistory| >= limit {
        return false;
      }
      clientHistory := clientHistory + [now];
      history := history[client := clientHistory];
      allowed := true;
    }
  }
}
