/** `upload_facebook_video` (fb_uploader/upload.py, lines 13-109): the resumable
    upload protocol of the Graph API, driven as a start POST, a loop of transfer
    POSTs over the byte offsets the server hands back, and a finish POST.

    The file is a byte sequence (absent when the path is not a file), the clock a
    parameter, and the server a script of decoded replies. The POSTs the code
    issues are collected, in order, so that properties can speak about them. */
module Upload {
  import opened Wrappers
  import opened Json
  import opened Schedule
  import opened Faults

  newtype byte = x: int | 0 <= x < 256

  /** One `requests.post` to `https://graph-video.facebook.com/v19.0/{page_id}/videos`:
      the `data` fields as the code builds them (a Python None is `JNull`) and,
      for a transfer, the `video_file_chunk` part. */
  datatype Post = Post(pageId: string, form: map<string, Json>, chunk: Option<seq<byte>>)

  /** `(start_offset, end_offset)` */
  datatype Cursor = Cursor(start: int, end: int)

  /** What the start phase hands on: `upload_session_id`, `video_id` and the first offsets. */
  datatype Session = Session(id: Json, videoId: Json, cursor: Cursor)

  /** The server's replies in order. A transfer POST that finds no reply left is
      treated as a POST that raised. */
  datatype Script = Script(start: Reply, transfers: seq<Reply>, finish: Reply)

  /** The transfer POSTs issued by the loop, and how the loop ended: with the
      cursor it stopped at, or with the fault that aborted it. */
  datatype Transfer = Transfer(posts: seq<Post>, end: Result<Cursor, Fault>)

  /** The loop's POSTs preceded by those already sent. */
  function Then(sent: seq<Post>, t: Transfer): Transfer {
    Transfer(sent + t.posts, t.end)
  }

  lemma ThenAppend(sent: seq<Post>, post: Post, t: Transfer)
    ensures Then(sent, Then([post], t)) == Then(sent + [post], t)
  {
    assert sent + ([post] + t.posts) == (sent + [post]) + t.posts;
  }

  /** Everything the upload does: its POSTs, and the video id or the fault. */
  datatype Run = Run(posts: seq<Post>, outcome: Result<Json, Fault>)

  /** A finish POST. */
  predicate IsFinish(p: Post) {
    "upload_phase" in p.form && p.form["upload_phase"] == JStr("finish")
  }

  /** A decoded reply that is a dict holding `"error"`. */
  predicate CarriesError(reply: Reply) {
    reply.Body? && reply.json.JObj? && "error" in reply.json.fields
  }

  // ---------------------------------------------------------------------------
  // The three kinds of POST
  // ---------------------------------------------------------------------------

  function StartPost(pageId: string, token: string, fileSize: nat): Post {
    Post(pageId, map["upload_phase" := JStr("start"), "file_size" := JInt(fileSize), "access_token" := JStr(token)], None)
  }

  function TransferPost(pageId: string, token: string, sessionId: Json, start: int, chunk: seq<byte>): Post {
    Post(pageId,
         map["upload_phase" := JStr("transfer"), "upload_session_id" := sessionId,
             "start_offset" := JInt(start), "access_token" := JStr(token)],
         Some(chunk))
  }

  /** The keys every finish POST carries. */
  const FinishKeys: set<string> := {"upload_phase", "upload_session_id", "access_token", "title", "description"}
  /** The keys a scheduled finish POST adds. */
  const ScheduleKeys: set<string> := {"published", "scheduled_publish_time"}

  /** Python's truth value of `scheduled_timestamp`: None and 0 are false. */
  predicate Truthy(ts: Option<int>) {
    ts.Some? && ts.value != 0
  }

  /** The `finish_data` dict (lines 88-97). */
  function FinishForm(sessionId: Json, token: string, title: string, description: string, ts: Option<int>): (form: map<string, Json>)
    ensures form.Keys == FinishKeys + (if Truthy(ts) then ScheduleKeys else {})
    ensures form["upload_phase"] == JStr("finish") && form["upload_session_id"] == sessionId
    ensures form["access_token"] == JStr(token) && form["title"] == JStr(title) && form["description"] == JStr(description)
    ensures Truthy(ts) ==> form["published"] == JStr("false") && form["scheduled_publish_time"] == JInt(ts.value)
  {
    var base := map["upload_phase" := JStr("finish"), "upload_session_id" := sessionId, "access_token" := JStr(token),
                    "title" := JStr(title), "description" := JStr(description)];
    if Truthy(ts) then base["published" := JStr("false")]["scheduled_publish_time" := JInt(ts.value)] else base
  }

  /** The code that builds `finish_data`: a dict literal, then two insertions when
      the timestamp is truthy. */
  method BuildFinishForm(sessionId: Json, token: string, title: string, description: string, ts: Option<int>)
    returns (form: map<string, Json>)
    ensures form == FinishForm(sessionId, token, title, description, ts)
  {
    form := map[];
    form := form["upload_phase" := JStr("finish")];
    form := form["upload_session_id" := sessionId];
    form := form["access_token" := JStr(token)];
    form := form["title" := JStr(title)];
    form := form["description" := JStr(description)];
    if ts.Some? && ts.value != 0 {
      form := form["published" := JStr("false")];
      form := form["scheduled_publish_time" := JInt(ts.value)];
    }
  }

  // ---------------------------------------------------------------------------
  // Reading the file (lines 58-60)
  // ---------------------------------------------------------------------------

  /** The largest `Py_ssize_t` and `off_t`: `f.seek` and `f.read` refuse any
      argument above it. */
  const SsizeMax: int := 0x7FFF_FFFF_FFFF_FFFF

  /** `f.seek(pos); f.read(size)`: seek refuses a negative position and one that
      does not fit an `off_t`; read takes everything up to the end of the file
      for -1, refuses anything below -1 and anything that does not fit a
      `Py_ssize_t`, and otherwise takes at most `size` bytes. */
  function ReadChunk(data: seq<byte>, pos: int, size: int): (r: Result<seq<byte>, Fault>)
    ensures r.Err? <==> pos < 0 || pos > SsizeMax || size < -1 || size > SsizeMax
    ensures r.Err? ==> r.error == BadSeekOrRead
    ensures r.Ok? && pos <= |data| ==> pos + |r.value| <= |data| && r.value == data[pos..pos + |r.value|]
    ensures r.Ok? && pos <= |data| && size == -1 ==> |r.value| == |data| - pos
    ensures r.Ok? && pos <= |data| && size >= 0 ==> |r.value| == if pos + size <= |data| then size else |data| - pos
    ensures r.Ok? && pos >= |data| ==> r.value == []
  {
    if pos < 0 || pos > SsizeMax || size < -1 || size > SsizeMax then Err(BadSeekOrRead)
    else if pos >= |data| then Ok([])
    else if size == -1 || pos + size > |data| then Ok(data[pos..])
    else Ok(data[pos..pos + size])
  }

  // ---------------------------------------------------------------------------
  // Interpreting the replies
  // ---------------------------------------------------------------------------

  /** The start reply (lines 46-54), step by step as Python evaluates it:
      `"error" in start_data`, then `start_data.get(...)` and `int(...)`. */
  function OpenSession(reply: Reply): (r: Result<Session, Fault>)
    ensures reply.Unreadable? ==> r == Err(UnreadableReply)
    ensures reply.Body? && !reply.json.JObj? ==> r == Err(UnexpectedBody)
    ensures CarriesError(reply) ==> r == Err(StartRejected(reply.json.fields["error"]))
    ensures r.Ok? <==>
      && reply.Body? && reply.json.JObj? && "error" !in reply.json.fields
      && ToInt(FieldOr(reply.json.fields, "start_offset", JInt(0))).Some?
      && ToInt(FieldOr(reply.json.fields, "end_offset", JInt(0))).Some?
    ensures r.Ok? ==>
      var fields := reply.json.fields;
      && r.value.id == FieldOr(fields, "upload_session_id", JNull)
      && r.value.videoId == FieldOr(fields, "video_id", JNull)
      && r.value.cursor.start == (if "start_offset" in fields then ToInt(fields["start_offset"]).value else 0)
      && r.value.cursor.end == (if "end_offset" in fields then ToInt(fields["end_offset"]).value else 0)
  {
    match reply
    case Unreadable => Err(UnreadableReply)
    case Body(data) =>
      match Contains("error", data)
      case None => Err(UnexpectedBody)
      case Some(true) =>
        (match Subscript(data, "error")
         case Some(e) => Err(StartRejected(e))
         case None => Err(UnexpectedBody))
      case Some(false) =>
        if !data.JObj? then Err(UnexpectedBody)
        else
          var sessionId := GetOr(data, "upload_session_id", JNull).value;
          var videoId := GetOr(data, "video_id", JNull).value;
          match ToInt(GetOr(data, "start_offset", JInt(0)).value)
          case None => Err(BadOffset)
          case Some(start) =>
            match ToInt(GetOr(data, "end_offset", JInt(0)).value)
            case None => Err(BadOffset)
            case Some(end) => Ok(Session(sessionId, videoId, Cursor(start, end)))
  }

  /** A transfer reply (lines 74-82): an `"error"` aborts the upload, otherwise
      each offset the reply names replaces the current one. */
  function AfterTransfer(reply: Reply, c: Cursor): (r: Result<Cursor, Fault>)
    ensures !(reply.Body? && reply.json.JObj?) ==> r.Err?
    ensures CarriesError(reply) ==>
      r == Err(match Subscript(reply.json.fields["error"], "message")
               case Some(message) => TransferRejected(message)
               case None => UnexpectedBody)
    ensures r.Ok? <==>
      && reply.Body? && reply.json.JObj? && "error" !in reply.json.fields
      && ToInt(FieldOr(reply.json.fields, "start_offset", JInt(c.start))).Some?
      && ToInt(FieldOr(reply.json.fields, "end_offset", JInt(c.end))).Some?
    ensures r.Ok? ==>
      var fields := reply.json.fields;
      && r.value.start == (if "start_offset" in fields then ToInt(fields["start_offset"]).value else c.start)
      && r.value.end == (if "end_offset" in fields then ToInt(fields["end_offset"]).value else c.end)
  {
    match reply
    case Unreadable => Err(UnreadableReply)
    case Body(data) =>
      match Contains("error", data)
      case None => Err(UnexpectedBody)
      case Some(true) =>
        (match Subscript(data, "error")
         case None => Err(UnexpectedBody)
         case Some(e) =>
           match Subscript(e, "message")
           case None => Err(UnexpectedBody)
           case Some(message) => Err(TransferRejected(message)))
      case Some(false) =>
        if !data.JObj? then Err(UnexpectedBody)
        else
          match ToInt(GetOr(data, "start_offset", JInt(c.start)).value)
          case None => Err(BadOffset)
          case Some(start) =>
            match ToInt(GetOr(data, "end_offset", JInt(c.end)).value)
            case None => Err(BadOffset)
            case Some(end) => Ok(Cursor(start, end))
  }

  /** The finish reply (lines 103-106): only `"error" in result` is asked, so a
      list or a string without `"error"` in it passes as well as a dict. */
  function FinishFault(reply: Reply): (r: Option<Fault>)
    ensures CarriesError(reply) ==> r == Some(FinishRejected(reply.json.fields["error"]))
    ensures r.None? <==> reply.Body? && Contains("error", reply.json) == Some(false)
    ensures reply.Body? && reply.json.JObj? ==> (r.None? <==> "error" !in reply.json.fields)
  {
    match reply
    case Unreadable => Some(UnreadableReply)
    case Body(result) =>
      match Contains("error", result)
      case None => Some(UnexpectedBody)
      case Some(false) => None
      case Some(true) =>
        match Subscript(result, "error")
        case Some(e) => Some(FinishRejected(e))
        case None => Some(UnexpectedBody)
  }

  // ---------------------------------------------------------------------------
  // The specification of the upload
  // ---------------------------------------------------------------------------

  /** The transfer loop (lines 57-82) from cursor `c`, with `replies` still to come. */
  function Transfers(data: seq<byte>, pageId: string, token: string, sessionId: Json, c: Cursor, replies: seq<Reply>)
    : (t: Transfer)
    ensures |t.posts| <= |replies| + 1
    ensures |t.posts| == |replies| + 1 ==> t.end == Err(UnreadableReply)
    decreases |replies|
  {
    if c.start >= |data| then Transfer([], Ok(c))
    else
      match ReadChunk(data, c.start, c.end - c.start)
      case Err(f) => Transfer([], Err(f))
      case Ok(chunk) =>
        if chunk == [] then Transfer([], Ok(c))
        else
          var post := TransferPost(pageId, token, sessionId, c.start, chunk);
          if replies == [] then Transfer([post], Err(UnreadableReply))
          else
            match AfterTransfer(replies[0], c)
            case Err(f) => Transfer([post], Err(f))
            case Ok(next) =>
              var rest := Transfers(data, pageId, token, sessionId, next, replies[1..]);
              Transfer([post] + rest.posts, rest.end)
  }

  /** The timestamp the validation block (lines 27-35) leaves: None when no
      schedule time was given. */
  function ScheduleStamp(scheduled: Option<DateTime>, nowMicros: int): Option<int>
    requires scheduled.Some? ==> scheduled.value.Valid()
  {
    if scheduled.None? then None else ScheduledTimestamp(scheduled.value, nowMicros)
  }

  /** `upload_facebook_video` as a function of its inputs. */
  function UploadSpec(pageId: string, token: string, file: Option<seq<byte>>, title: string, description: string,
                      scheduled: Option<DateTime>, nowMicros: int, script: Script): (r: Run)
    requires scheduled.Some? ==> scheduled.value.Valid()
    ensures r.posts != [] ==> file.Some? && r.posts[0] == StartPost(pageId, token, |file.value|)
    ensures r.outcome.Ok? ==> |r.posts| >= 2
    ensures |r.posts| <= |script.transfers| + 2
  {
    if file.None? then Run([], Err(FileNotFound))
    else if scheduled.Some? && TooSoon(scheduled.value, nowMicros) then Run([], Err(ScheduleTooSoon))
    else
      var data := file.value;
      var start := StartPost(pageId, token, |data|);
      match OpenSession(script.start)
      case Err(f) => Run([start], Err(f))
      case Ok(session) =>
        var transfer := Transfers(data, pageId, token, session.id, session.cursor, script.transfers);
        var sent := [start] + transfer.posts;
        if transfer.end.Err? then Run(sent, Err(transfer.end.error))
        else
          var finish := Post(pageId, FinishForm(session.id, token, title, description, ScheduleStamp(scheduled, nowMicros)), None);
          match FinishFault(script.finish)
          case Some(f) => Run(sent + [finish], Err(f))
          case None => Run(sent + [finish], Ok(session.videoId))
  }

  // ---------------------------------------------------------------------------
  // The upload, as the code runs it
  // ---------------------------------------------------------------------------

  /** One pass of the loop body (lines 58-82) at offsets `c`, with `replies` still
      to come: read the chunk, POST it, and read the offsets off the reply. Returns
      the POST issued, if any, and either the offsets to go on with or, when `stop`
      is set, how the loop ends. */
  method TransferStep(data: seq<byte>, pageId: string, token: string, sessionId: Json, c: Cursor, replies: seq<Reply>)
    returns (post: Option<Post>, next: Result<Cursor, Fault>, stop: bool)
    requires c.start < |data|
    ensures stop ==> Transfers(data, pageId, token, sessionId, c, replies)
                     == Transfer(if post.Some? then [post.value] else [], next)
    ensures !stop ==> post.Some? && next.Ok? && replies != []
                      && Transfers(data, pageId, token, sessionId, c, replies)
                         == Then([post.value], Transfers(data, pageId, token, sessionId, next.value, replies[1..]))
  {
    var read := ReadChunk(data, c.start, c.end - c.start);
    if read.Err? {
      return None, Err(read.error), true;
    }
    var chunk := read.value;
    if chunk == [] {
      return None, Ok(c), true;
    }
    post := Some(TransferPost(pageId, token, sessionId, c.start, chunk));
    if replies == [] {
      return post, Err(UnreadableReply), true;
    }
    next := AfterTransfer(replies[0], c);
    stop := next.Err?;
  }

  /** The transfer loop (lines 56-85), as the code runs it: while the start offset
      is inside the file, one pass of the body after another. */
  method TransferLoop(data: seq<byte>, pageId: string, token: string, sessionId: Json, c: Cursor, replies: seq<Reply>)
    returns (sent: seq<Post>, end: Result<Cursor, Fault>)
    ensures Transfer(sent, end) == Transfers(data, pageId, token, sessionId, c, replies)
  {
    var startOffset, endOffset := c.start, c.end;
    var pending := replies;
    sent := [];
    ghost var whole := Transfers(data, pageId, token, sessionId, c, replies);
    while startOffset < |data|
      invariant whole == Then(sent, Transfers(data, pageId, token, sessionId, Cursor(startOffset, endOffset), pending))
      decreases |pending|
    {
      var post, next, stop := TransferStep(data, pageId, token, sessionId, Cursor(startOffset, endOffset), pending);
      if post.Some? {
        sent := sent + [post.value];
      }
      if stop {
        return sent, next;
      }
      ThenAppend(sent[..|sent| - 1], post.value, Transfers(data, pageId, token, sessionId, next.value, pending[1..]));
      startOffset, endOffset := next.value.start, next.value.end;
      pending := pending[1..];
    }
    end := Ok(Cursor(startOffset, endOffset));
  }

  /** `upload_facebook_video`: returns the video id or the fault, and the POSTs
      issued. */
  method UploadFacebookVideo(pageId: string, token: string, file: Option<seq<byte>>, title: string, description: string,
                             scheduled: Option<DateTime>, nowMicros: int, script: Script)
    returns (videoId: Result<Json, Fault>, posts: seq<Post>)
    requires scheduled.Some? ==> scheduled.value.Valid()
    ensures Run(posts, videoId) == UploadSpec(pageId, token, file, title, description, scheduled, nowMicros, script)
  {
    if file.None? {
      return Err(FileNotFound), [];
    }
    var data := file.value;
    var fileSize := |data|;

    var ts: Option<int> := None;
    if scheduled.Some? {
      if TooSoon(scheduled.value, nowMicros) {
        return Err(ScheduleTooSoon), [];
      }
      ts := Some(Timestamp(scheduled.value));
    }

    posts := [StartPost(pageId, token, fileSize)];
    var started := OpenSession(script.start);
    if started.Err? {
      return Err(started.error), posts;
    }
    var session := started.value;

    var sent, end := TransferLoop(data, pageId, token, session.id, session.cursor, script.transfers);
    posts := posts + sent;
    if end.Err? {
      return Err(end.error), posts;
    }

    var form := BuildFinishForm(session.id, token, title, description, ts);
    posts := posts + [Post(pageId, form, None)];
    var finishFault := FinishFault(script.finish);
    if finishFault.Some? {
      return Err(finishFault.value), posts;
    }
    return Ok(session.videoId), posts;
  }

  // ---------------------------------------------------------------------------
  // Properties of the transfer loop
  // ---------------------------------------------------------------------------

  /** A transfer POST that declares offset `o` in `start_offset` and carries the
      non-empty bytes of the file that begin at `o`. */
  predicate SendsSlice(data: seq<byte>, p: Post) {
    && p.chunk.Some? && p.chunk.value != []
    && "upload_phase" in p.form && p.form["upload_phase"] == JStr("transfer")
    && "start_offset" in p.form && p.form["start_offset"].JInt?
    && var o := p.form["start_offset"].i;
       0 <= o && o + |p.chunk.value| <= |data| && p.chunk.value == data[o..o + |p.chunk.value|]
  }

  /** Every transfer POST carries the file's bytes at the offset it declares. */
  lemma {:induction false} TransfersSendSlices(data: seq<byte>, pageId: string, token: string, sessionId: Json,
                                               c: Cursor, replies: seq<Reply>)
    ensures forall p :: p in Transfers(data, pageId, token, sessionId, c, replies).posts ==> SendsSlice(data, p)
    decreases |replies|
  {
    if c.start < |data| {
      var read := ReadChunk(data, c.start, c.end - c.start);
      if read.Ok? && read.value != [] && replies != [] {
        var next := AfterTransfer(replies[0], c);
        if next.Ok? {
          TransfersSendSlices(data, pageId, token, sessionId, next.value, replies[1..]);
        }
      }
    }
  }

  /** The loop stops without a fault only where the code leaves it: past the end
      of the file, or on an empty chunk, which within the file happens exactly
      when `end_offset == start_offset`. */
  lemma {:induction false} TransfersEndAtExit(data: seq<byte>, pageId: string, token: string, sessionId: Json,
                                              c: Cursor, replies: seq<Reply>)
    ensures var t := Transfers(data, pageId, token, sessionId, c, replies);
      t.end.Ok? ==> t.end.value.start >= |data| || t.end.value.end == t.end.value.start
    decreases |replies|
  {
    if c.start < |data| {
      var read := ReadChunk(data, c.start, c.end - c.start);
      if read.Ok? && read.value != [] && replies != [] {
        var next := AfterTransfer(replies[0], c);
        if next.Ok? {
          TransfersEndAtExit(data, pageId, token, sessionId, next.value, replies[1..]);
        }
      }
    }
  }

  /** A transfer reply carrying `"error"` ends the loop: the POST it answers is
      the last one, and the loop reports a fault. */
  lemma {:induction false} ErrorReplyEndsTransfers(data: seq<byte>, pageId: string, token: string, sessionId: Json,
                                                   c: Cursor, replies: seq<Reply>, k: nat)
    requires k < |replies| && CarriesError(replies[k])
    requires k < |Transfers(data, pageId, token, sessionId, c, replies).posts|
    ensures |Transfers(data, pageId, token, sessionId, c, replies).posts| == k + 1
    ensures Transfers(data, pageId, token, sessionId, c, replies).end.Err?
    decreases |replies|
  {
    var next := AfterTransfer(replies[0], c);
    if k > 0 && next.Ok? {
      ErrorReplyEndsTransfers(data, pageId, token, sessionId, next.value, replies[1..], k - 1);
    }
  }

  /** The bytes of a run of transfer POSTs, in order. */
  function Chunks(posts: seq<Post>): seq<byte> {
    if posts == [] then [] else (if posts[0].chunk.Some? then posts[0].chunk.value else []) + Chunks(posts[1..])
  }

  /** The POSTs declare gapless offsets running from `from` to `to`: each one
      starts where the bytes of the previous one ended. */
  predicate Gapless(posts: seq<Post>, from: int, to: int) {
    if posts == [] then from == to
    else
      && posts[0].chunk.Some? && "start_offset" in posts[0].form && posts[0].form["start_offset"] == JInt(from)
      && Gapless(posts[1..], from + |posts[0].chunk.value|, to)
  }

  lemma {:induction false} GaplessSlicesCover(data: seq<byte>, posts: seq<Post>, from: int, to: int)
    requires 0 <= from <= |data|
    requires forall p :: p in posts ==> SendsSlice(data, p)
    requires Gapless(posts, from, to)
    ensures from <= to <= |data| && Chunks(posts) == data[from..to]
  {
    if posts != [] {
      var chunk := posts[0].chunk.value;
      assert SendsSlice(data, posts[0]);
      GaplessSlicesCover(data, posts[1..], from + |chunk|, to);
      assert data[from..to] == data[from..from + |chunk|] + data[from + |chunk|..to];
    }
  }

  /** When the server resumes each transfer where the previous chunk ended and
      the loop runs off the end of the file, the chunks sent are exactly the file
      from the first offset on. */
  lemma ResumedTransfersCoverFile(data: seq<byte>, pageId: string, token: string, sessionId: Json,
                                  c: Cursor, replies: seq<Reply>)
    requires 0 <= c.start <= |data|
    requires var t := Transfers(data, pageId, token, sessionId, c, replies);
      t.end.Ok? && t.end.value.start >= |data| && Gapless(t.posts, c.start, t.end.value.start)
    ensures Chunks(Transfers(data, pageId, token, sessionId, c, replies).posts) == data[c.start..]
  {
    var t := Transfers(data, pageId, token, sessionId, c, replies);
    TransfersSendSlices(data, pageId, token, sessionId, c, replies);
    GaplessSlicesCover(data, t.posts, c.start, t.end.value.start);
  }

  // ---------------------------------------------------------------------------
  // Properties of the whole upload
  // ---------------------------------------------------------------------------

  /** Nothing is sent when the file is missing or the schedule time is too soon;
      otherwise the first POST is the start POST announcing the file size. */
  lemma ValidationPrecedesRequests(pageId: string, token: string, file: Option<seq<byte>>, title: string, description: string,
                                   scheduled: Option<DateTime>, nowMicros: int, script: Script)
    requires scheduled.Some? ==> scheduled.value.Valid()
    ensures var run := UploadSpec(pageId, token, file, title, description, scheduled, nowMicros, script);
      && (run.posts == [] <==> file.None? || (scheduled.Some? && TooSoon(scheduled.value, nowMicros)))
      && (file.None? ==> run.outcome == Err(FileNotFound))
      && (file.Some? && scheduled.Some? && TooSoon(scheduled.value, nowMicros) ==> run.outcome == Err(ScheduleTooSoon))
      && (run.posts != [] ==> run.posts[0] == StartPost(pageId, token, |file.value|))
  {
  }

  /** Once validation and the start reply pass, the POSTs are the start POST,
      the loop's transfer POSTs and, exactly when the loop ended without a
      fault, one finish POST; a fault of the loop is the outcome. */
  lemma UploadPhases(pageId: string, token: string, file: Option<seq<byte>>, title: string, description: string,
                     scheduled: Option<DateTime>, nowMicros: int, script: Script)
    requires scheduled.Some? ==> scheduled.value.Valid()
    requires file.Some? && !(scheduled.Some? && TooSoon(scheduled.value, nowMicros)) && OpenSession(script.start).Ok?
    ensures var session := OpenSession(script.start).value;
      var t := Transfers(file.value, pageId, token, session.id, session.cursor, script.transfers);
      var run := UploadSpec(pageId, token, file, title, description, scheduled, nowMicros, script);
      && |run.posts| == 1 + |t.posts| + (if t.end.Ok? then 1 else 0)
      && run.posts[..1 + |t.posts|] == [StartPost(pageId, token, |file.value|)] + t.posts
      && (t.end.Err? ==> run.outcome == Err(t.end.error))
      && (t.end.Ok? ==> IsFinish(run.posts[|run.posts| - 1]) && run.posts[|run.posts| - 1].chunk.None?)
  {
    var session := OpenSession(script.start).value;
    var t := Transfers(file.value, pageId, token, session.id, session.cursor, script.transfers);
    var run := UploadSpec(pageId, token, file, title, description, scheduled, nowMicros, script);
    var sent := [StartPost(pageId, token, |file.value|)] + t.posts;
    if t.end.Ok? {
      assert run.posts[..1 + |t.posts|] == sent;
    } else {
      assert run.posts[..1 + |t.posts|] == sent;
    }
  }

  /** An error in the start reply ends the upload after the start POST. */
  lemma StartErrorStopsUpload(pageId: string, token: string, file: Option<seq<byte>>, title: string, description: string,
                              scheduled: Option<DateTime>, nowMicros: int, script: Script)
    requires scheduled.Some? ==> scheduled.value.Valid()
    requires file.Some? && !(scheduled.Some? && TooSoon(scheduled.value, nowMicros))
    requires CarriesError(script.start)
    ensures var run := UploadSpec(pageId, token, file, title, description, scheduled, nowMicros, script);
      run.posts == [StartPost(pageId, token, |file.value|)]
      && run.outcome == Err(StartRejected(script.start.json.fields["error"]))
  {
  }

  /** An error in a transfer reply that the loop reads ends the upload: no finish
      POST follows, and the outcome is a fault. */
  lemma TransferErrorStopsUpload(pageId: string, token: string, file: Option<seq<byte>>, title: string, description: string,
                                 scheduled: Option<DateTime>, nowMicros: int, script: Script, k: nat)
    requires scheduled.Some? ==> scheduled.value.Valid()
    requires k < |script.transfers| && CarriesError(script.transfers[k])
    requires var run := UploadSpec(pageId, token, file, title, description, scheduled, nowMicros, script);
      k + 1 < |run.posts| && run.posts[k + 1].chunk.Some?
    ensures var run := UploadSpec(pageId, token, file, title, description, scheduled, nowMicros, script);
      |run.posts| == k + 2 && run.outcome.Err? && forall p :: p in run.posts ==> !IsFinish(p)
  {
    var run := UploadSpec(pageId, token, file, title, description, scheduled, nowMicros, script);
    assert file.Some? && !(scheduled.Some? && TooSoon(scheduled.value, nowMicros)) && OpenSession(script.start).Ok?;
    UploadPhases(pageId, token, file, title, description, scheduled, nowMicros, script);
    var session := OpenSession(script.start).value;
    var t := Transfers(file.value, pageId, token, session.id, session.cursor, script.transfers);
    ErrorReplyEndsTransfers(file.value, pageId, token, session.id, session.cursor, script.transfers, k);
    TransfersSendSlices(file.value, pageId, token, session.id, session.cursor, script.transfers);
    assert run.posts == [StartPost(pageId, token, |file.value|)] + t.posts;
  }

  /** An error in the finish reply fails the upload: whatever happened before,
      the outcome is a fault, and when the finish POST was made it is the
      finish reply's error. */
  lemma FinishErrorFailsUpload(pageId: string, token: string, file: Option<seq<byte>>, title: string, description: string,
                               scheduled: Option<DateTime>, nowMicros: int, script: Script)
    requires scheduled.Some? ==> scheduled.value.Valid()
    requires CarriesError(script.finish)
    ensures var run := UploadSpec(pageId, token, file, title, description, scheduled, nowMicros, script);
      && run.outcome.Err?
      && (run.posts != [] && IsFinish(run.posts[|run.posts| - 1]) ==>
            run.outcome == Err(FinishRejected(script.finish.json.fields["error"])))
  {
    if file.Some? && !(scheduled.Some? && TooSoon(scheduled.value, nowMicros)) && OpenSession(script.start).Ok? {
      var session := OpenSession(script.start).value;
      var t := Transfers(file.value, pageId, token, session.id, session.cursor, script.transfers);
      var run := UploadSpec(pageId, token, file, title, description, scheduled, nowMicros, script);
      UploadPhases(pageId, token, file, title, description, scheduled, nowMicros, script);
      if t.end.Err? {
        assert run.posts == [StartPost(pageId, token, |file.value|)] + t.posts;
        if t.posts != [] {
          TransfersSendSlices(file.value, pageId, token, session.id, session.cursor, script.transfers);
          assert run.posts[|run.posts| - 1] in t.posts;
        }
      }
    }
  }

  /** A successful upload returns the start reply's `video_id`, ends with the
      finish POST built from the session and the validated timestamp, and every
      POST between start and finish is a transfer of file bytes. */
  lemma SuccessfulUpload(pageId: string, token: string, file: Option<seq<byte>>, title: string, description: string,
                         scheduled: Option<DateTime>, nowMicros: int, script: Script)
    requires scheduled.Some? ==> scheduled.value.Valid()
    requires UploadSpec(pageId, token, file, title, description, scheduled, nowMicros, script).outcome.Ok?
    ensures var run := UploadSpec(pageId, token, file, title, description, scheduled, nowMicros, script);
      && file.Some? && script.start.Body? && script.start.json.JObj? && !CarriesError(script.start)
      && run.outcome.value == FieldOr(script.start.json.fields, "video_id", JNull)
      && |run.posts| >= 2
      && run.posts[0] == StartPost(pageId, token, |file.value|)
      && run.posts[|run.posts| - 1] == Post(pageId,
           FinishForm(FieldOr(script.start.json.fields, "upload_session_id", JNull), token, title, description,
                      ScheduleStamp(scheduled, nowMicros)), None)
      && (forall k :: 1 <= k < |run.posts| - 1 ==> SendsSlice(file.value, run.posts[k]))
      && (scheduled.Some? ==> ScheduleStamp(scheduled, nowMicros).value >= nowMicros / MicrosPerSecond + 600)
  {
    var data := file.value;
    var session := OpenSession(script.start).value;
    var t := Transfers(data, pageId, token, session.id, session.cursor, script.transfers);
    TransfersSendSlices(data, pageId, token, session.id, session.cursor, script.transfers);
    var run := UploadSpec(pageId, token, file, title, description, scheduled, nowMicros, script);
    assert run.posts[1..|run.posts| - 1] == t.posts;
    forall k | 1 <= k < |run.posts| - 1
      ensures SendsSlice(data, run.posts[k])
    {
      assert run.posts[k] == t.posts[k - 1];
      assert run.posts[k] in t.posts;
    }
  }
}
