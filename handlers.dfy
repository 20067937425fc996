/** The two request handlers of fb_uploader/upload.py that decide something:
    `upload_video` (lines 116-159), which reads the schedule text and turns what
    `upload_facebook_video` raises into a 500 response, and `exchange_token`
    (lines 163-191), which classifies the token endpoint's reply. */
module Handlers {
  import opened Wrappers
  import opened Json
  import opened Schedule
  import opened Faults
  import opened Upload

  /** The JSON body of a response. */
  datatype Content =
    | VideoUploaded(videoId: Json)      // {"status": "success", "video_id": ...}
    | TokenExchanged(token: Json)       // {"status": "success", "long_lived_user_token": ...}
    | ErrorMessage(error: Json)         // {"error": <the upstream error or "Unknown error">}
    | ErrorRaised(fault: Fault)         // {"error": str(e)}

  datatype Response = Response(status: int, content: Content)

  /** A handler's response together with the POSTs it made upstream. */
  datatype Served = Served(response: Response, posts: seq<Post>)

  // ---------------------------------------------------------------------------
  // upload_video
  // ---------------------------------------------------------------------------

  /** The schedule block of `upload_video` (lines 133-136): an absent or empty
      `scheduled_time` means no schedule; anything else must parse as
      `%Y-%m-%d %H:%M`, read as UTC. */
  function ScheduleOf(scheduledTime: Option<string>): (r: Result<Option<DateTime>, Fault>)
    ensures r == Ok(None) <==> scheduledTime.None? || scheduledTime.value == []
    ensures r.Err? <==> scheduledTime.Some? && scheduledTime.value != [] && Parse(scheduledTime.value).None?
    ensures r.Err? ==> r.error == ScheduleUnparsable
    ensures r.Ok? && r.value.Some? ==> scheduledTime.Some? && r.value == Parse(scheduledTime.value)
    ensures r.Ok? && r.value.Some? ==> r.value.value.Valid() && r.value.value.second == 0 && r.value.value.micro == 0
  {
    if scheduledTime.None? || scheduledTime.value == [] then Ok(None)
    else
      match Parse(scheduledTime.value)
      case None => Err(ScheduleUnparsable)
      case Some(dt) => Ok(Some(dt))
  }

  /** `upload_video` as a function of the form fields, the clock and the server.
      Every failure is a 500 carrying what was raised; success is a 200 carrying
      the `video_id`, and there is no other status. */
  function UploadVideoSpec(pageId: string, accessToken: string, title: string, description: string,
                           scheduledTime: Option<string>, content: seq<byte>, nowMicros: int, script: Script)
    : (served: Served)
    ensures served.response.status == 200 <==> served.response.content.VideoUploaded?
    ensures served.response.status != 200 <==> served.response.status == 500
    ensures served.response.status == 500 <==> served.response.content.ErrorRaised?
    ensures ScheduleOf(scheduledTime).Err? ==> served == Served(Response(500, ErrorRaised(ScheduleUnparsable)), [])
    ensures ScheduleOf(scheduledTime).Ok? ==>
      var run := UploadSpec(pageId, accessToken, Some(content), title, description, ScheduleOf(scheduledTime).value, nowMicros, script);
      && served.posts == run.posts
      && served.response == (if run.outcome.Ok? then Response(200, VideoUploaded(run.outcome.value))
                             else Response(500, ErrorRaised(run.outcome.error)))
  {
    match ScheduleOf(scheduledTime)
    case Err(f) => Served(Response(500, ErrorRaised(f)), [])
    case Ok(scheduled) =>
      var run := UploadSpec(pageId, accessToken, Some(content), title, description, scheduled, nowMicros, script);
      match run.outcome
      case Ok(videoId) => Served(Response(200, VideoUploaded(videoId)), run.posts)
      case Err(f) => Served(Response(500, ErrorRaised(f)), run.posts)
  }

  /** `upload_video`: parse the schedule, run the upload on the received bytes,
      and answer 200 with the video id or 500 with whatever was raised. */
  method UploadVideo(pageId: string, accessToken: string, title: string, description: string,
                     scheduledTime: Option<string>, content: seq<byte>, nowMicros: int, script: Script)
    returns (response: Response, posts: seq<Post>)
    ensures Served(response, posts) == UploadVideoSpec(pageId, accessToken, title, description, scheduledTime, content, nowMicros, script)
  {
    var scheduled: Option<DateTime> := None;
    if scheduledTime.Some? && scheduledTime.value != [] {
      scheduled := Parse(scheduledTime.value);
      if scheduled.None? {
        return Response(500, ErrorRaised(ScheduleUnparsable)), [];
      }
    }
    var videoId;
    videoId, posts := UploadFacebookVideo(pageId, accessToken, Some(content), title, description, scheduled, nowMicros, script);
    if videoId.Err? {
      return Response(500, ErrorRaised(videoId.error)), posts;
    }
    response := Response(200, VideoUploaded(videoId.value));
  }

  /** A schedule text that does not parse, or that names an instant less than ten
      minutes ahead, is answered with 500 before any POST is made. */
  lemma ScheduleRejectedBeforeUpload(pageId: string, accessToken: string, title: string, description: string,
                                     text: string, content: seq<byte>, nowMicros: int, script: Script)
    requires text != []
    requires Parse(text).None? || TooSoon(Parse(text).value, nowMicros)
    ensures var served := UploadVideoSpec(pageId, accessToken, title, description, Some(text), content, nowMicros, script);
      && served.posts == []
      && served.response == Response(500, ErrorRaised(if Parse(text).None? then ScheduleUnparsable else ScheduleTooSoon))
  {
    if Parse(text).Some? {
      ValidationPrecedesRequests(pageId, accessToken, Some(content), title, description, Parse(text), nowMicros, script);
    }
  }

  /** A successful upload of a scheduled video answers with the start reply's
      `video_id`, and its finish POST asks for publication at the epoch seconds
      of the instant the schedule text names, which lies at least ten minutes
      after `now`. */
  lemma ScheduledUploadPublishesAtText(pageId: string, accessToken: string, title: string, description: string,
                                       text: string, content: seq<byte>, nowMicros: int, script: Script)
    requires text != [] && Parse(text).Some?
    requires UploadVideoSpec(pageId, accessToken, title, description, Some(text), content, nowMicros, script).response.status == 200
    ensures var dt := Parse(text).value;
      var served := UploadVideoSpec(pageId, accessToken, title, description, Some(text), content, nowMicros, script);
      && served.response.content == VideoUploaded(FieldOr(script.start.json.fields, "video_id", JNull))
      && |served.posts| >= 2
      && EpochMicros(dt) >= nowMicros + MinLeadMicros
      && var finish := served.posts[|served.posts| - 1].form;
         EpochSeconds(dt) != 0 ==>
           "scheduled_publish_time" in finish && finish["scheduled_publish_time"] == JInt(EpochSeconds(dt))
           && finish["published"] == JStr("false")
  {
    var dt := Parse(text).value;
    var served := UploadVideoSpec(pageId, accessToken, title, description, Some(text), content, nowMicros, script);
    var run := UploadSpec(pageId, accessToken, Some(content), title, description, Some(dt), nowMicros, script);
    assert ScheduleOf(Some(text)) == Ok(Some(dt));
    assert served.posts == run.posts && served.response.content == VideoUploaded(run.outcome.value);
    SuccessfulUpload(pageId, accessToken, Some(content), title, description, Some(dt), nowMicros, script);
  }

  /** A successful upload without a schedule answers with the start reply's
      `video_id`, and its finish POST carries no scheduling fields. */
  lemma UnscheduledUploadFinishesPlain(pageId: string, accessToken: string, title: string, description: string,
                                        scheduledTime: Option<string>, content: seq<byte>, nowMicros: int, script: Script)
    requires scheduledTime.None? || scheduledTime.value == []
    requires UploadVideoSpec(pageId, accessToken, title, description, scheduledTime, content, nowMicros, script).response.status == 200
    ensures var served := UploadVideoSpec(pageId, accessToken, title, description, scheduledTime, content, nowMicros, script);
      && served.response.content == VideoUploaded(FieldOr(script.start.json.fields, "video_id", JNull))
      && |served.posts| >= 2
      && served.posts[|served.posts| - 1].form.Keys == FinishKeys
  {
    SuccessfulUpload(pageId, accessToken, Some(content), title, description, None, nowMicros, script);
  }

  // ---------------------------------------------------------------------------
  // exchange_token
  // ---------------------------------------------------------------------------

  /** The endpoint `exchange_token` queries (line 170). */
  const TokenEndpoint: string := "https://graph.facebook.com/v19.0/oauth/access_token"

  /** A GET request: the URL and its query parameters. */
  datatype TokenRequest = TokenRequest(url: string, params: map<string, string>)

  /** The request of the token exchange (lines 170-178). */
  function TokenRequestOf(appId: string, appSecret: string, shortToken: string): (q: TokenRequest)
    ensures q.url == TokenEndpoint
    ensures q.params.Keys == {"grant_type", "client_id", "client_secret", "fb_exchange_token"}
    ensures q.params["grant_type"] == "fb_exchange_token"
    ensures q.params["client_id"] == appId && q.params["client_secret"] == appSecret
    ensures q.params["fb_exchange_token"] == shortToken
  {
    TokenRequest(TokenEndpoint,
      map["grant_type" := "fb_exchange_token", "client_id" := appId, "client_secret" := appSecret,
          "fb_exchange_token" := shortToken])
  }

  /** `exchange_token`: send the request to the token endpoint, whose answer is
      `upstream`'s, and classify the reply step by step as Python evaluates
      `"access_token" in data`, `data["access_token"]` and
      `data.get("error", "Unknown error")`; whatever raises becomes a 500. */
  function ExchangeToken(appId: string, appSecret: string, shortToken: string, upstream: TokenRequest -> Reply)
    : (r: Response)
    ensures var reply := upstream(TokenRequestOf(appId, appSecret, shortToken));
      && (r.status == 200 <==> reply.Body? && reply.json.JObj? && "access_token" in reply.json.fields)
      && (r.status == 200 ==> r.content == TokenExchanged(reply.json.fields["access_token"]))
      && (r.status == 400 <==> reply.Body? && reply.json.JObj? && "access_token" !in reply.json.fields)
      && (r.status == 400 ==> r.content == ErrorMessage(FieldOr(reply.json.fields, "error", JStr("Unknown error"))))
      && (r.status != 200 && r.status != 400 ==> r.status == 500 && r.content.ErrorRaised?)
  {
    match upstream(TokenRequestOf(appId, appSecret, shortToken))
    case Unreadable => Response(500, ErrorRaised(UnreadableReply))
    case Body(data) =>
      match Contains("access_token", data)
      case None => Response(500, ErrorRaised(UnexpectedBody))
      case Some(true) =>
        (match Subscript(data, "access_token")
         case Some(token) => Response(200, TokenExchanged(token))
         case None => Response(500, ErrorRaised(UnexpectedBody)))
      case Some(false) =>
        match GetOr(data, "error", JStr("Unknown error"))
        case Some(error) => Response(400, ErrorMessage(error))
        case None => Response(500, ErrorRaised(UnexpectedBody))
  }
}
