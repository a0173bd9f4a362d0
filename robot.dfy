/** The webhook handler TransmitRobot (gitlab.go:228-334) up to the POST: the
    token check, the dispatch on the X-Gitlab-Event header, the body decoded
    as the payload that header names, the renderer, the "no content" check,
    the emoji pass and the envelope. */
module Robot {
  import opened Strings
  import opened Payloads
  import opened Renderers
  import opened Gitmoji
  import opened GitEmojiMap
  import opened EmojiPass
  import opened Envelope

  /** The result of decoding the JSON body as one payload shape. */
  datatype Decoded<T> = Decoded(value: T) | Malformed(error: string)

  /** The request body decoded as each of the six payload shapes; the handler
      reads the one its event header names. */
  datatype Body = Body(
    push: Decoded<PushBody>,
    tagPush: Decoded<TagPushBody>,
    issue: Decoded<IssuePushBody>,
    note: Decoded<CommentPushBody>,
    mergeRequest: Decoded<MRPushBody>,
    pipeline: Decoded<PipelineBody>)

  /** The X-Gitlab-Token header, the X-Gitlab-Event header and the body. */
  datatype Request = Request(token: string, event: string, body: Body)

  /** What the handler does with a request. */
  datatype Outcome =
    | Forbidden(message: string)                        // status 403, a plain body
    | Reply(status: int, errCode: int, errMsg: string)  // a WxResp written back
    | Send(url: string, payload: string)                // the POST to the robot

  const TokenMissing: string := "X-Gitlab-Token is empty"
  const BadBodyPrefix: string := "Parse gitlab requset body error: "
  const RobotEndpoint: string := "https://qyapi.weixin.qq.com/cgi-bin/webhook/send?key="
  const NoContent: string := "no content"

  // ---------------------------------------------------------------------------
  // Events

  datatype Event = PushHook | TagPushHook | IssueHook | NoteHook | MergeRequestHook | PipelineHook

  function EventHeader(e: Event): string {
    match e
    case PushHook => "Push Hook"
    case TagPushHook => "Tag Push Hook"
    case IssueHook => "Issue Hook"
    case NoteHook => "Note Hook"
    case MergeRequestHook => "Merge Request Hook"
    case PipelineHook => "Pipeline Hook"
  }

  /** The event an X-Gitlab-Event header names, compared in the handler's
      order; None for any other header. */
  function ParseEvent(header: string): (e: Option<Event>)
    ensures e.Some? ==> EventHeader(e.value) == header
  {
    if header == "Push Hook" then Some(PushHook)
    else if header == "Tag Push Hook" then Some(TagPushHook)
    else if header == "Issue Hook" then Some(IssueHook)
    else if header == "Note Hook" then Some(NoteHook)
    else if header == "Merge Request Hook" then Some(MergeRequestHook)
    else if header == "Pipeline Hook" then Some(PipelineHook)
    else None
  }

  /** Each event is recognised by its own header. */
  lemma ParseEventHeader(e: Event)
    ensures ParseEvent(EventHeader(e)) == Some(e)
  {
    match e
    case PushHook =>
    case TagPushHook =>
      assert "Tag Push Hook" != "Push Hook" by { assert |"Tag Push Hook"| != |"Push Hook"|; }
    case IssueHook =>
      assert "Issue Hook"[0] == 'I';
    case NoteHook =>
      assert "Note Hook"[0] == 'N';
    case MergeRequestHook =>
      assert "Merge Request Hook"[0] == 'M';
    case PipelineHook =>
      assert "Pipeline Hook"[0] == 'P';
  }

  // ---------------------------------------------------------------------------
  // One event's branch

  /** A branch of the handler: the body did not decode, or the renderer's result. */
  datatype Step = BadBody(error: string) | Done(result: Rendered)

  function RenderEvent(e: Event, body: Body): Step {
    match e
    case PushHook =>
      (match body.push
       case Malformed(err) => BadBody(err)
       case Decoded(b) => Done(PushOutcome(b)))
    case TagPushHook =>
      (match body.tagPush
       case Malformed(err) => BadBody(err)
       case Decoded(b) => Done(Content(TagPushContent(b))))
    case IssueHook =>
      (match body.issue
       case Malformed(err) => BadBody(err)
       case Decoded(b) => Done(Content(IssueContent(b))))
    case NoteHook =>
      (match body.note
       case Malformed(err) => BadBody(err)
       case Decoded(b) => Done(Content(NoteContent(b))))
    case MergeRequestHook =>
      (match body.mergeRequest
       case Malformed(err) => BadBody(err)
       case Decoded(b) => Done(Content(MergeRequestContent(b))))
    case PipelineHook =>
      (match body.pipeline
       case Malformed(err) => BadBody(err)
       case Decoded(b) => Done(PipelineOutcome(b)))
  }

  /** The name a message is headed with: the repository's, or the project's for
      a pipeline ("" when the body did not decode). */
  function Subject(e: Event, body: Body): string {
    match e
    case PushHook => if body.push.Decoded? then body.push.value.repository.name else ""
    case TagPushHook => if body.tagPush.Decoded? then body.tagPush.value.repository.name else ""
    case IssueHook => if body.issue.Decoded? then body.issue.value.repository.name else ""
    case NoteHook => if body.note.Decoded? then body.note.value.repository.name else ""
    case MergeRequestHook => if body.mergeRequest.Decoded? then body.mergeRequest.value.repository.name else ""
    case PipelineHook => if body.pipeline.Decoded? then body.pipeline.value.project.name else ""
  }

  // ---------------------------------------------------------------------------
  // The handler

  /** The end of the handler: nothing to send, or the emoji pass over the
      content (in the map order `order`) sent in the markdown envelope. */
  function Deliver(order: seq<Entry>, token: string, content: string): Outcome {
    if |content| == 0 then Reply(200, 0, NoContent)
    else Send(RobotEndpoint + token, BuildMsg(Substitute(order, content), true))
  }

  /** The handler's if-chain on the event header: an answer given on the
      spot (a body that does not decode, a short-circuit reason), or the
      content built so far ("" when no event matched). */
  function EventBranch(event: string, body: Body): (Option<Outcome>, string) {
    match ParseEvent(event)
    case None => (None, "")
    case Some(e) =>
      match RenderEvent(e, body)
      case BadBody(err) => (Some(Reply(400, 400, BadBodyPrefix + err)), "")
      case Done(Skip(reason)) => (Some(Reply(200, 0, reason)), "")
      case Done(Content(text)) => (None, text)
  }

  /** What TransmitRobot does with a request, when the map is iterated in `order`. */
  function Respond(order: seq<Entry>, req: Request): Outcome {
    if |req.token| == 0 then Forbidden(TokenMissing)
    else
      var (early, content) := EventBranch(req.event, req.body);
      if early.Some? then early.value else Deliver(order, req.token, content)
  }

  /** TransmitRobot as written: the token check, the if-chain, then the
      "no content" check, the emoji pass and the envelope. */
  method TransmitRobot(order: seq<Entry>, req: Request) returns (out: Outcome)
    requires IsMapOrder(order)
    ensures out == Respond(order, req)
  {
    if |req.token| == 0 {
      return Forbidden(TokenMissing);
    }
    var requestUrl := RobotEndpoint + req.token;
    var early, content := RenderRequest(req.event, req.body);
    if early.Some? {
      return early.value;
    }
    if |content| == 0 {
      return Reply(200, 0, NoContent);
    }
    content := Trans2Emoji(order, content);
    var data := BuildMsg(content, true);
    return Send(requestUrl, data);
  }

  /** The if-chain of gitlab.go:238-317: each branch decodes the body as its
      payload (400 when that fails) and renders it, or answers on the spot. */
  method RenderRequest(event: string, body: Body) returns (early: Option<Outcome>, content: string)
    ensures (early, content) == EventBranch(event, body)
  {
    early, content := None, "";
    if event == "Push Hook" {
      match body.push
      case Malformed(err) =>
        early := Some(Reply(400, 400, BadBodyPrefix + err));
      case Decoded(b) =>
        var r := RenderPush(b);
        if r.Skip? {
          early := Some(Reply(200, 0, r.reason));
        } else {
          content := r.text;
        }
    } else if event == "Tag Push Hook" {
      match body.tagPush
      case Malformed(err) =>
        early := Some(Reply(400, 400, BadBodyPrefix + err));
      case Decoded(b) =>
        content := TagPushContent(b);
    } else if event == "Issue Hook" {
      match body.issue
      case Malformed(err) =>
        early := Some(Reply(400, 400, BadBodyPrefix + err));
      case Decoded(b) =>
        content := IssueContent(b);
    } else if event == "Note Hook" {
      match body.note
      case Malformed(err) =>
        early := Some(Reply(400, 400, BadBodyPrefix + err));
      case Decoded(b) =>
        content := NoteContent(b);
    } else if event == "Merge Request Hook" {
      match body.mergeRequest
      case Malformed(err) =>
        early := Some(Reply(400, 400, BadBodyPrefix + err));
      case Decoded(b) =>
        content := MergeRequestContent(b);
    } else if event == "Pipeline Hook" {
      match body.pipeline
      case Malformed(err) =>
        early := Some(Reply(400, 400, BadBodyPrefix + err));
      case Decoded(b) =>
        var r := RenderPipeline(b);
        if r.Skip? {
          early := Some(Reply(200, 0, r.reason));
        } else {
          content := r.text;
        }
    }
  }

  // ---------------------------------------------------------------------------
  // Properties of the handler

  /** Every rendered message starts with its heading line. */
  lemma RenderedHeading(e: Event, body: Body, text: string)
    requires RenderEvent(e, body) == Done(Content(text))
    ensures StartsWith(text, Heading(Subject(e, body)))
  {
    var h := Heading(Subject(e, body));
    match e
    case PushHook =>
      var b := body.push.value;
      PushContentShape(b);
      assert text == h + (BranchLine(b.ref) + "\n" + (Joined(CommitTexts(b.commits)) + PushTail(b)));
    case TagPushHook =>
      assert text == h + TagPushText(body.tagPush.value);
    case IssueHook =>
      assert text == h + IssueText(body.issue.value);
    case NoteHook =>
      var b := body.note.value;
      assert text == h + (NoteComment(b) + "\n" + DetailLink(b.objectAttributes.url));
    case MergeRequestHook =>
      var b := body.mergeRequest.value;
      assert text == h + (MergeRequestAction(b) + "\n" + DetailLink(b.objectAttributes.url));
    case PipelineHook =>
      var b := body.pipeline.value;
      var p := b.objectAttributes;
      PipelineContentShape(b);
      assert text == h + (PipelineLine(p) + "\n" + (StatusLine(p) + "\n" + (StartLine(p) + "\n" + (FinishPart(p) + DurationPart(p)))));
  }

  /** Neither short-circuit reason reads "no content". */
  lemma SkipReasons(e: Event, body: Body, reason: string)
    requires RenderEvent(e, body) == Done(Skip(reason))
    ensures reason != NoContent
  {
    if e == PushHook {
      assert reason == "no commit";
      assert reason[5] != NoContent[5];
    } else {
      assert reason[0] == 'u';
    }
  }

  /** The handler's three early answers: 403 exactly when the token is
      missing, and "no content" exactly when the event header names no
      known event. */
  lemma DispatchOutcomes(order: seq<Entry>, req: Request)
    ensures Respond(order, req).Forbidden? <==> |req.token| == 0
    ensures Respond(order, req).Forbidden? ==> Respond(order, req).message == TokenMissing
    ensures |req.token| > 0 ==>
      (Respond(order, req) == Reply(200, 0, NoContent) <==> ParseEvent(req.event).None?)
  {
    if |req.token| > 0 && ParseEvent(req.event).Some? {
      var e := ParseEvent(req.event).value;
      match RenderEvent(e, req.body)
      case BadBody(err) =>
      case Done(Skip(reason)) =>
        SkipReasons(e, req.body, reason);
      case Done(Content(text)) =>
        RenderedHeading(e, req.body, text);
    }
  }

  /** A body that does not decode as the payload the header names is answered
      with status 400 and the decoder's error. */
  lemma MalformedBody(order: seq<Entry>, req: Request, e: Event, err: string)
    requires |req.token| > 0 && req.event == EventHeader(e)
    requires RenderEvent(e, req.body) == BadBody(err)
    ensures Respond(order, req) == Reply(400, 400, BadBodyPrefix + err)
  {
    ParseEventHeader(e);
  }

  /** A push with no commit that keeps its branch is answered "no commit",
      and only such a push. */
  lemma PushWithoutCommit(order: seq<Entry>, req: Request, b: PushBody)
    requires |req.token| > 0 && req.event == "Push Hook" && req.body.push == Decoded(b)
    ensures Respond(order, req) == Reply(200, 0, "no commit") <==> NoCommit(b)
  {
    if !NoCommit(b) {
      RenderedHeading(PushHook, req.body, PushContent(b));
    }
  }

  /** A pipeline in an unknown status is answered "unknown status: " with the
      status, and only such a pipeline. */
  lemma PipelineUnknownStatus(order: seq<Entry>, req: Request, b: PipelineBody)
    requires |req.token| > 0 && req.event == "Pipeline Hook" && req.body.pipeline == Decoded(b)
    ensures var status := b.objectAttributes.status;
      Respond(order, req) == Reply(200, 0, "unknown status: " + status)
      <==> status !in {"failed", "running", "success", "pending"}
  {
    assert ParseEvent(req.event) == Some(PipelineHook);
    if StatusIcon(b.objectAttributes.status) != "" {
      RenderedHeading(PipelineHook, req.body, PipelineContent(b));
    }
  }

  /** The emoji pass over a rendered message, for any well-formed table: no
      key is left, the heading stays the first line with only its name
      passed through, and a second pass changes nothing. */
  lemma PassedMessage(order: seq<Entry>, text: string, name: string)
    requires WellFormed(order) && StartsWith(text, Heading(name))
    ensures var c := Substitute(order, text);
      && (forall e | e in order :: !Contains(c, Key(e)))
      && StartsWith(c, "# " + Substitute(order, name) + "\n")
      && Substitute(order, c) == c
  {
    SubstituteRemovesKeys(order, text);
    SubstituteIdempotent(order, text);
    var rest := text[|Heading(name)|..];
    assert text == "# " + name + "\n" + rest;
    SubstituteHeading(order, name, rest);
  }

  /** What is sent: to the robot named by the token, the markdown envelope
      around the content after the emoji pass, in which no shortcode of the
      table is left, whose first line is the heading with the emoji pass
      applied to the name, and which a second pass would leave as it is. */
  lemma SentMessage(order: seq<Entry>, req: Request)
    requires IsMapOrder(order) && Respond(order, req).Send?
    ensures Respond(order, req).url == RobotEndpoint + req.token
    ensures var m := ParseEnvelope(Respond(order, req).payload);
      && m.Some? && m.value.markdown
      && (forall e | e in GitEmojiTable :: !Contains(m.value.content, Key(e)))
      && StartsWith(m.value.content, "# " + Substitute(order, Subject(ParseEvent(req.event).value, req.body)) + "\n")
      && Substitute(order, m.value.content) == m.value.content
  {
    var e := ParseEvent(req.event).value;
    var text := RenderEvent(e, req.body).result.text;
    var c := Substitute(order, text);
    assert Respond(order, req).payload == BuildMsg(c, true);
    MapOrderWellFormed(order);
    ParseBuildMsg(c, true);
    RenderedHeading(e, req.body, text);
    PassedMessage(order, text, Subject(e, req.body));
  }
}
