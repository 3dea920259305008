/** The client side of an output hook (hook/hook-client.go): bodies handed to
    Send are buffered and posted to the listener in order by a delivery
    loop, which also keeps the connection alive and posts a final message
    when the client is stopped. */
module Hook {
  import opened Wrappers
  import opened GoTime

  const HookClientBufferSize: nat := 100
  /** The listener's watchdog period. */
  const HookListenIdleTimeout: int := 10 * Second
  /** Keepalives go out twice per watchdog period. */
  const HookClientIdleTimeout: int := HookListenIdleTimeout / 2
  const HookClientReqTimeout: int := 3 * Second

  type Bytes = seq<bv8>

  /** A POST the delivery loop makes, to /update, /keepalive or /finish. */
  datatype Post = PostUpdate(body: Bytes) | PostKeepAlive | PostFinish

  /** The case the delivery loop's select takes. */
  datatype Event = BodyReady | KeepAliveTick | ContextDone

  /** The bodies of the /update posts, in order. */
  function Updates(posts: seq<Post>): seq<Bytes>
  {
    if |posts| == 0 then []
    else
      var last := posts[|posts| - 1];
      Updates(posts[..|posts| - 1]) + (if last.PostUpdate? then [last.body] else [])
  }

  /** Posting anything but an update adds no update. */
  lemma UpdatesAppend(posts: seq<Post>, p: Post)
    ensures Updates(posts + [p]) == Updates(posts) + (if p.PostUpdate? then [p.body] else [])
  {
    assert (posts + [p])[..|posts|] == posts;
  }

  class HookClient {
    var address: string
    /** The contents of UpdateChan, oldest first. */
    var buffer: seq<Bytes>
    var outputLog: seq<Bytes>
    var isRunning: bool
    /** The context of the current delivery loop has been cancelled. */
    var cancelled: bool
    /** A delivery loop is running. */
    var looping: bool
    /** What the delivery loop has posted, in order. */
    var posts: seq<Post>
    /** Every body Send accepted, in order. */
    ghost var sent: seq<Bytes>
    /** Where in `posts` the current delivery loop began. */
    ghost var sessionStart: nat

    /** Bodies leave in the order they were sent: what has been logged and
        what is still buffered is exactly what Send accepted; every logged
        body has been posted; a running client's loop is live; a live loop
        has not posted /finish. */
    ghost predicate Valid()
      reads this
    {
      |buffer| <= HookClientBufferSize
      && outputLog + buffer == sent
      && Updates(posts) == outputLog
      && (isRunning ==> looping && !cancelled)
      && sessionStart <= |posts|
      && (looping ==> forall i :: sessionStart <= i < |posts| ==> !posts[i].PostFinish?)
    }

    /** NewHookClient: stopped, with nothing buffered or logged. */
    constructor (addr: string)
      ensures Valid()
      ensures address == addr && !isRunning && !looping
      ensures buffer == [] && outputLog == [] && posts == [] && sent == []
    {
      address := addr;
      buffer := [];
      outputLog := [];
      isRunning := false;
      cancelled := false;
      looping := false;
      posts := [];
      sent := [];
      sessionStart := 0;
    }

    /** Send: a running client queues the body; a stopped one refuses it.
        A full channel would block the caller, which a sequential model
        cannot do. */
    method Send(body: Bytes) returns (err: Option<string>)
      requires Valid()
      requires isRunning ==> |buffer| < HookClientBufferSize
      modifies this
      ensures Valid()
      ensures old(isRunning) ==> err.None? && buffer == old(buffer) + [body] && sent == old(sent) + [body]
      ensures !old(isRunning) ==> err == Some("HookClient is not running") && buffer == old(buffer) && sent == old(sent)
      ensures outputLog == old(outputLog) && posts == old(posts)
      ensures isRunning == old(isRunning) && looping == old(looping) && cancelled == old(cancelled)
    {
      if isRunning {
        buffer := buffer + [body];
        sent := sent + [body];
        return None;
      }
      err := Some("HookClient is not running");
    }

    /** Start: a fresh context and a delivery loop. */
    method Start() returns (err: Option<string>)
      requires Valid()
      requires !looping
      modifies this
      ensures Valid()
      ensures err.None? && isRunning && looping && !cancelled
      ensures buffer == old(buffer) && outputLog == old(outputLog) && posts == old(posts) && sent == old(sent)
    {
      cancelled := false;
      isRunning := true;
      looping := true;
      sessionStart := |posts|;
      err := None;
    }

    /** Stop: cancels the loop only when running; afterwards the client is
        not running, and a second Stop changes nothing. */
    method Stop()
      requires Valid()
      modifies this
      ensures Valid()
      ensures !isRunning
      ensures cancelled == (old(cancelled) || old(isRunning))
      ensures !old(isRunning) ==> cancelled == old(cancelled)
      ensures buffer == old(buffer) && outputLog == old(outputLog) && posts == old(posts) && sent == old(sent)
      ensures looping == old(looping)
    {
      if isRunning {
        cancelled := true;
      }
      isRunning := false;
    }

    /** Whether the select of the delivery loop can take a case. */
    predicate Ready(e: Event)
      reads this
    {
      match e
      case BodyReady => |buffer| > 0
      case KeepAliveTick => true
      case ContextDone => cancelled
    }

    /** One pass of the delivery loop's select: a body is logged and then
        posted to /update; a tick posts /keepalive; a cancelled context
        posts /finish and ends the loop. Failed posts are only printed. */
    method DeliverOne(e: Event)
      requires Valid() && looping && Ready(e)
      modifies this
      ensures Valid()
      ensures e.BodyReady? ==>
        buffer == old(buffer)[1..] && outputLog == old(outputLog) + [old(buffer)[0]]
        && posts == old(posts) + [PostUpdate(old(buffer)[0])] && looping
      ensures e.KeepAliveTick? ==>
        buffer == old(buffer) && outputLog == old(outputLog) && posts == old(posts) + [PostKeepAlive] && looping
      ensures e.ContextDone? ==>
        buffer == old(buffer) && outputLog == old(outputLog) && posts == old(posts) + [PostFinish] && !looping
      ensures sent == old(sent) && isRunning == old(isRunning) && cancelled == old(cancelled)
    {
      match e
      case BodyReady =>
        var body := buffer[0];
        buffer := buffer[1..];
        outputLog := outputLog + [body];
        UpdatesAppend(posts, PostUpdate(body));
        posts := posts + [PostUpdate(body)];
        assert outputLog + buffer == old(outputLog) + ([body] + buffer);
        assert [body] + buffer == old(buffer);
      case KeepAliveTick =>
        UpdatesAppend(posts, PostKeepAlive);
        posts := posts + [PostKeepAlive];
      case ContextDone =>
        UpdatesAppend(posts, PostFinish);
        posts := posts + [PostFinish];
        looping := false;
    }
  }

  /** Whatever has been logged is the oldest part of what was sent, in the
      order it was sent; the rest is still buffered behind it. */
  lemma LogIsSentPrefix(h: HookClient)
    requires h.Valid()
    ensures |h.outputLog| <= |h.sent|
    ensures h.outputLog == h.sent[..|h.outputLog|]
    ensures h.buffer == h.sent[|h.outputLog|..]
  {
    assert h.sent == h.outputLog + h.buffer;
  }
}
