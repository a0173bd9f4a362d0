/** The six Markdown templates of TransmitRobot (gitlab.go:239-316): each turns
    a decoded payload into the message text, or into the reason the handler
    answers the webhook directly instead of sending anything. */
module Renderers {
  import opened Strings
  import opened Payloads

  /** A renderer's result: the message, or the reason the handler answers with
      (status 200, errcode 0) without sending anything. */
  datatype Rendered = Content(text: string) | Skip(reason: string)

  /** The `after` of a push that deletes its branch. */
  const ZeroSha: string := "0000000000000000000000000000000000000000"

  /** The first line of every message: the repository (or project) name. */
  function Heading(name: string): string {
    "# " + name + "\n"
  }

  /** No '\n' in `s`: a field that fits on one line. */
  predicate OneLine(s: string) {
    '\n' !in s
  }

  // ---------------------------------------------------------------------------
  // Push Hook (gitlab.go:239-255)

  function BranchLine(ref: string): string {
    "### On branch `" + ref + "`"
  }

  /** A commit message with every '\n' removed. */
  function CommitMessage(c: Commit): (m: string)
    ensures OneLine(m)
    ensures forall x | x in m :: x in c.message
  {
    ReplaceAllDeletes(c.message, '\n');
    ReplaceAll(c.message, "\n", "")
  }

  function CommitText(c: Commit): string {
    c.author.name + " push a commit [" + CommitMessage(c) + "](" + c.url + ")  " + c.timestamp
  }

  function CommitTexts(commits: seq<Commit>): seq<string> {
    seq(|commits|, i requires 0 <= i < |commits| => CommitText(commits[i]))
  }

  function RemovalNotice(userName: string): string {
    userName + " `remove` it"
  }

  /** A push that carries no commit and does not delete its branch. */
  predicate NoCommit(b: PushBody) {
    |b.commits| == 0 && b.after != ZeroSha
  }

  /** The message before the commit lines. */
  function PushHead(b: PushBody): string {
    Heading(b.repository.name) + (BranchLine(b.ref) + "\n")
  }

  /** The removal notice, or "" when the push keeps its branch. */
  function PushTail(b: PushBody): string {
    if b.after == ZeroSha then RemovalNotice(b.userName) else ""
  }

  function PushContent(b: PushBody): string {
    PushHead(b) + Joined(CommitTexts(b.commits)) + PushTail(b)
  }

  function PushOutcome(b: PushBody): Rendered {
    if NoCommit(b) then Skip("no commit") else Content(PushContent(b))
  }

  /** The Push Hook branch: a heading, then one `+=` per commit, then the
      removal notice for a deleted branch. */
  method RenderPush(b: PushBody) returns (r: Rendered)
    ensures r == PushOutcome(b)
    ensures r.Skip? <==> |b.commits| == 0 && b.after != ZeroSha
    ensures r.Skip? ==> r.reason == "no commit"
  {
    if |b.commits| == 0 && b.after != ZeroSha {
      return Skip("no commit");
    }
    var content := "# " + b.repository.name + "\n";
    content := content + ("### On branch `" + b.ref + "`" + "\n");
    content := AppendCommitLines(content, b.commits);
    ghost var body := content;
    if b.after == ZeroSha {
      content := content + (b.userName + " `remove` it");
    }
    assert content == body + PushTail(b);
    return Content(content);
  }

  /** The loop of gitlab.go:250-252: one `+=` per commit, in order. */
  method AppendCommitLines(head: string, commits: seq<Commit>) returns (content: string)
    ensures content == head + Joined(CommitTexts(commits))
  {
    content := head;
    assert CommitTexts(commits[..0]) == [];
    for i := 0 to |commits|
      invariant content == head + Joined(CommitTexts(commits[..i]))
    {
      var v := commits[i];
      var line := v.author.name + " push a commit [" + ReplaceAll(v.message, "\n", "") + "](" + v.url + ")  " + v.timestamp;
      assert line == CommitText(v);
      CommitLinesSnoc(commits, i);
      AppendAssoc(head, Joined(CommitTexts(commits[..i])), line + "\n");
      content := content + (line + "\n");
    }
    assert commits[..|commits|] == commits;
  }

  lemma AppendAssoc(a: string, b: string, c: string)
    ensures a + b + c == a + (b + c)
  {
  }

  /** One more commit line joins the lines of the commits before it. */
  lemma CommitLinesSnoc(commits: seq<Commit>, i: nat)
    requires i < |commits|
    ensures Joined(CommitTexts(commits[..i + 1])) == Joined(CommitTexts(commits[..i])) + (CommitText(commits[i]) + "\n")
  {
    assert CommitTexts(commits[..i + 1]) == CommitTexts(commits[..i]) + [CommitText(commits[i])];
    JoinedSnoc(CommitTexts(commits[..i]), CommitText(commits[i]));
  }

  // ---------------------------------------------------------------------------
  // Tag Push Hook (gitlab.go:256-262)

  /** The link target: the homepage followed by the ref with every "refs" removed. */
  function TagLink(b: TagPushBody): string {
    b.repository.homepage + ReplaceAll(b.ref, "refs", "")
  }

  /** The text after the heading (the Sprintf of gitlab.go:262). */
  function TagPushText(b: TagPushBody): string {
    b.userName + " push a tag: [" + b.ref + "](" + TagLink(b) + ")"
  }

  function TagPushContent(b: TagPushBody): string {
    Heading(b.repository.name) + TagPushText(b)
  }

  // ---------------------------------------------------------------------------
  // Issue Hook (gitlab.go:263-269)

  function IssueText(b: IssuePushBody): string {
    b.user.name + " " + b.objectAttributes.action + " a issue ["
    + b.objectAttributes.title + "](" + b.objectAttributes.url + ")"
  }

  function IssueContent(b: IssuePushBody): string {
    Heading(b.repository.name) + IssueText(b)
  }

  // ---------------------------------------------------------------------------
  // Note Hook (gitlab.go:270-276)

  /** The last line of a note or a merge request message. */
  function DetailLink(url: string): string {
    "[Detail>>](" + url + ")"
  }

  /** The format string of gitlab.go:276 up to its embedded '\n'. */
  function NoteComment(b: CommentPushBody): string {
    b.user.name + " leave a comment: " + b.objectAttributes.note + "  " + b.objectAttributes.updatedAt + " "
  }

  function NoteContent(b: CommentPushBody): string {
    Heading(b.repository.name) + (NoteComment(b) + "\n" + DetailLink(b.objectAttributes.url))
  }

  // ---------------------------------------------------------------------------
  // Merge Request Hook (gitlab.go:277-283)

  /** The format string of gitlab.go:283 up to its embedded '\n'. */
  function MergeRequestAction(b: MRPushBody): string {
    b.user.name + " `" + b.objectAttributes.action + "` a merge request from `"
    + b.objectAttributes.sourceBranch + "` to `" + b.objectAttributes.targetBranch + "` "
  }

  function MergeRequestContent(b: MRPushBody): string {
    Heading(b.repository.name) + (MergeRequestAction(b) + "\n" + DetailLink(b.objectAttributes.url))
  }

  // ---------------------------------------------------------------------------
  // Pipeline Hook (gitlab.go:284-316)

  const FailedIcon: string := "\U{1F41B}"
  const RunningIcon: string := "\U{1F680}"
  const SuccessIcon: string := "\U{2705}"
  const PendingIcon: string := "\U{1F512}"

  /** The icon of a pipeline status; "" for a status the handler does not know. */
  function StatusIcon(status: string): (icon: string)
    ensures icon != "" <==> status in {"failed", "running", "success", "pending"}
    ensures ':' !in icon
  {
    if status == "failed" then FailedIcon
    else if status == "running" then RunningIcon
    else if status == "success" then SuccessIcon
    else if status == "pending" then PendingIcon
    else ""
  }

  function KindWord(tag: bool): string {
    if tag then "tag" else "branch"
  }

  function PipelineLine(p: PipelineObject): (line: string)
    ensures OneLine(line) <==> OneLine(p.ref)
  {
    "### Pipeline on " + KindWord(p.tag) + " `" + p.ref + "`"
  }

  function StatusLine(p: PipelineObject): (line: string)
    ensures OneLine(line)
  {
    "`Status`: " + StatusIcon(p.status)
  }

  function StartLine(p: PipelineObject): (line: string)
    ensures OneLine(line) <==> OneLine(p.createdAt)
  {
    "`Start at`: " + p.createdAt
  }

  function FinishPart(p: PipelineObject): string {
    if |p.finishedAt| > 0 then "`Finish at`: " + p.finishedAt + "\n" else ""
  }

  function DurationPart(p: PipelineObject): string {
    if p.duration > 0 then "`Duration`: " + NatToString(p.duration as int) + "s" else ""
  }

  function PipelineContent(b: PipelineBody): string {
    var p := b.objectAttributes;
    Heading(b.project.name) + (PipelineLine(p) + "\n")
    + (StatusLine(p) + "\n")
    + (StartLine(p) + "\n")
    + FinishPart(p) + DurationPart(p)
  }

  function PipelineOutcome(b: PipelineBody): Rendered {
    var status := b.objectAttributes.status;
    if StatusIcon(status) == "" then Skip("unknown status: " + status)
    else Content(PipelineContent(b))
  }

  /** The Pipeline Hook branch: successive conditional `+=` on the message. */
  method RenderPipeline(b: PipelineBody) returns (r: Rendered)
    ensures r == PipelineOutcome(b)
    ensures r.Skip? <==> b.objectAttributes.status !in {"failed", "running", "success", "pending"}
    ensures r.Skip? ==> r.reason == "unknown status: " + b.objectAttributes.status
  {
    var p := b.objectAttributes;
    var content := "# " + b.project.name + "\n";
    var branch := "branch";
    if p.tag {
      branch := "tag";
    }
    content := content + ("### Pipeline on " + branch + " `" + p.ref + "`" + "\n");
    var status := "";
    if p.status == "failed" {
      status := FailedIcon;
    } else if p.status == "running" {
      status := RunningIcon;
    } else if p.status == "success" {
      status := SuccessIcon;
    } else if p.status == "pending" {
      status := PendingIcon;
    }
    assert status == StatusIcon(p.status);
    if |status| == 0 {
      return Skip("unknown status: " + p.status);
    }
    assert branch == KindWord(p.tag);
    content := content + ("`Status`: " + status + "\n");
    content := content + ("`Start at`: " + p.createdAt + "\n");
    ghost var head := content;
    if |p.finishedAt| > 0 {
      content := content + ("`Finish at`: " + p.finishedAt + "\n");
    }
    assert content == head + FinishPart(p);
    if p.duration > 0 {
      content := content + ("`Duration`: " + NatToString(p.duration as int) + "s");
    }
    assert content == head + FinishPart(p) + DurationPart(p);
    return Content(content);
  }

  // ---------------------------------------------------------------------------
  // The layout of the messages, line by line

  /** The heading is the first line, whatever follows it. */
  lemma HeadingLine(name: string, rest: string)
    requires OneLine(name)
    ensures Lines(Heading(name) + rest) == ["# " + name] + Lines(rest)
  {
    assert Heading(name) + rest == ("# " + name) + "\n" + rest;
    LinesCons("# " + name, rest);
  }

  /** A pushed branch: the heading, the branch line, one line per commit in
      the order of the payload, then the removal notice if the push deleted
      the branch (otherwise the message ends with '\n'). */
  lemma PushLines(b: PushBody)
    requires !NoCommit(b)
    requires OneLine(b.repository.name) && OneLine(b.ref)
    requires forall c | c in b.commits :: OneLine(c.author.name) && OneLine(c.url) && OneLine(c.timestamp)
    requires b.after == ZeroSha ==> OneLine(b.userName)
    ensures Lines(PushContent(b))
         == ["# " + b.repository.name, BranchLine(b.ref)] + (CommitTexts(b.commits) + [PushTail(b)])
  {
    var rest := Joined(CommitTexts(b.commits)) + PushTail(b);
    PushRestLines(b);
    PushContentShape(b);
    LinesCons2("# " + b.repository.name, BranchLine(b.ref), rest);
  }

  /** The lines after the branch line: the commits, then the tail. */
  lemma PushRestLines(b: PushBody)
    requires forall c | c in b.commits :: OneLine(c.author.name) && OneLine(c.url) && OneLine(c.timestamp)
    requires b.after == ZeroSha ==> OneLine(b.userName)
    ensures Lines(Joined(CommitTexts(b.commits)) + PushTail(b)) == CommitTexts(b.commits) + [PushTail(b)]
  {
    CommitTextsOneLine(b.commits);
    LinesSingle(PushTail(b));
    LinesJoined(CommitTexts(b.commits), PushTail(b));
  }

  /** Commit lines are single lines when the author, url and timestamp are;
      the message itself has its '\n' removed. */
  lemma CommitTextsOneLine(commits: seq<Commit>)
    requires forall c | c in commits :: OneLine(c.author.name) && OneLine(c.url) && OneLine(c.timestamp)
    ensures forall i | 0 <= i < |CommitTexts(commits)| :: '\n' !in CommitTexts(commits)[i]
  {
    var texts := CommitTexts(commits);
    forall i | 0 <= i < |texts| ensures OneLine(texts[i]) {
      var c := commits[i];
      assert c in commits;
      assert texts[i] == c.author.name + " push a commit [" + CommitMessage(c) + "](" + c.url + ")  " + c.timestamp;
    }
  }

  /** The push message regrouped line by line. */
  lemma PushContentShape(b: PushBody)
    ensures PushContent(b)
         == "# " + b.repository.name + "\n" + (BranchLine(b.ref) + "\n" + (Joined(CommitTexts(b.commits)) + PushTail(b)))
  {
    var h, l, j, t := Heading(b.repository.name), BranchLine(b.ref) + "\n", Joined(CommitTexts(b.commits)), PushTail(b);
    assert PushContent(b) == h + l + j + t;
    assert h + l + j + t == h + (l + (j + t));
  }

  /** Joined lines end with '\n'. */
  lemma JoinedEndsWithNewline(lines: seq<string>)
    requires |lines| > 0
    ensures var j := Joined(lines); |j| > 0 && j[|j| - 1] == '\n'
    decreases |lines|
  {
    if |lines| > 1 {
      JoinedEndsWithNewline(lines[1..]);
    }
  }

  /** The removal notice ends the message exactly when the push deleted the branch. */
  lemma PushRemoval(b: PushBody)
    requires !NoCommit(b)
    ensures EndsWith(PushContent(b), RemovalNotice(b.userName)) <==> b.after == ZeroSha
  {
    var content := PushContent(b);
    var notice := RemovalNotice(b.userName);
    if b.after != ZeroSha {
      var texts := CommitTexts(b.commits);
      assert |texts| > 0;
      JoinedEndsWithNewline(texts);
      assert content == PushHead(b) + Joined(texts);
      assert content[|content| - 1] == '\n';
      assert notice[|notice| - 1] == 't';
    }
  }

  /** The Tag Push link: a ref "refs" + rest, with no further "refs" in rest,
      links to the homepage followed by rest. */
  lemma TagLinkTarget(b: TagPushBody, rest: string)
    requires b.ref == "refs" + rest && !Contains(rest, "refs")
    ensures TagLink(b) == b.repository.homepage + rest
  {
    ReplaceAllLeading("refs", rest, "");
    assert "" + ReplaceAll(rest, "refs", "") == rest;
  }

  /** For example, the tag refs/tags/v1 links to the homepage followed by /tags/v1. */
  lemma TagLinkExample(b: TagPushBody)
    requires b.ref == "refs/tags/v1"
    ensures TagLink(b) == b.repository.homepage + "/tags/v1"
  {
    assert b.ref == "refs" + "/tags/v1";
    NoCharNoContains("/tags/v1", "refs", 0);
    TagLinkTarget(b, "/tags/v1");
  }

  /** Every "refs" in the tag's ref is removed, not only the leading one: a
      tag whose name ends in "refs" loses that part of its name in the link. */
  lemma TagLinkLaterRefs(b: TagPushBody, path: string, c: char, p: char)
    requires b.ref == "refs" + path + [c] + [p] + "refs"
    requires 'r' !in path && c !in "refs" && p != 'r'
    ensures TagLink(b) == b.repository.homepage + path + [c] + [p]
  {
    var pat := "refs";
    var tail := [p] + pat;
    assert b.ref == pat + (path + [c] + tail);
    ReplaceAllLeading(pat, path + [c] + tail, "");
    ReplaceAllAround(path, c, tail, pat, "");
    NoCharNoContains(path, pat, 0);
    TrailingRefs(p);
  }

  lemma TrailingRefs(p: char)
    requires p != 'r'
    ensures ReplaceAll([p] + "refs", "refs", "") == [p]
  {
    var pat := "refs";
    var s := [p] + pat;
    assert s[0] != pat[0];
    assert !StartsWith(s, pat) && s[1..] == pat + "";
    ReplaceAllLeading(pat, "", "");
  }

  /** For example, the tag prefs links to the homepage followed by /tags/p. */
  lemma TagLinkInnerRefs(b: TagPushBody)
    requires b.ref == "refs/tags/prefs"
    ensures TagLink(b) == b.repository.homepage + "/tags/p"
  {
    assert b.ref == "refs" + "/tags" + ['/'] + ['p'] + "refs";
    TagLinkLaterRefs(b, "/tags", '/', 'p');
  }

  /** A note: heading, comment line, and the Detail link on a line of its own. */
  lemma NoteLines(b: CommentPushBody)
    requires OneLine(b.repository.name) && OneLine(b.user.name)
    requires OneLine(b.objectAttributes.note) && OneLine(b.objectAttributes.updatedAt) && OneLine(b.objectAttributes.url)
    ensures Lines(NoteContent(b))
         == ["# " + b.repository.name, NoteComment(b), DetailLink(b.objectAttributes.url)]
  {
    var link := DetailLink(b.objectAttributes.url);
    LinesSingle(link);
    LinesCons(NoteComment(b), link);
    HeadingLine(b.repository.name, NoteComment(b) + "\n" + link);
  }

  /** A merge request: heading, the action with its branches, and the Detail
      link on a line of its own. */
  lemma MergeRequestLines(b: MRPushBody)
    requires OneLine(b.repository.name) && OneLine(b.user.name) && OneLine(b.objectAttributes.action)
    requires OneLine(b.objectAttributes.sourceBranch) && OneLine(b.objectAttributes.targetBranch)
    requires OneLine(b.objectAttributes.url)
    ensures Lines(MergeRequestContent(b))
         == ["# " + b.repository.name, MergeRequestAction(b), DetailLink(b.objectAttributes.url)]
  {
    var link := DetailLink(b.objectAttributes.url);
    LinesSingle(link);
    LinesCons(MergeRequestAction(b), link);
    HeadingLine(b.repository.name, MergeRequestAction(b) + "\n" + link);
  }

  /** A pipeline: heading, kind and ref, status, start, the finish line only
      when a finish time is given, and last the duration when it is positive
      (an empty last line otherwise). */
  lemma PipelineLines(b: PipelineBody)
    requires OneLine(b.project.name) && OneLine(b.objectAttributes.ref)
    requires OneLine(b.objectAttributes.createdAt) && OneLine(b.objectAttributes.finishedAt)
    ensures var p := b.objectAttributes;
      Lines(PipelineContent(b))
      == ["# " + b.project.name, PipelineLine(p)]
         + ([StatusLine(p), StartLine(p)]
            + ((if |p.finishedAt| > 0 then ["`Finish at`: " + p.finishedAt] else []) + [DurationPart(p)]))
  {
    var p := b.objectAttributes;
    var afterStart := FinishPart(p) + DurationPart(p);
    PipelineTailLines(p);
    LinesCons2(StatusLine(p), StartLine(p), afterStart);
    PipelineContentShape(b);
    LinesCons2("# " + b.project.name, PipelineLine(p), StatusLine(p) + "\n" + (StartLine(p) + "\n" + afterStart));
  }

  /** The optional finish line and the duration, line by line. */
  lemma PipelineTailLines(p: PipelineObject)
    requires OneLine(p.finishedAt)
    ensures var finishes := if |p.finishedAt| > 0 then ["`Finish at`: " + p.finishedAt] else [];
      && FinishPart(p) == Joined(finishes)
      && Lines(FinishPart(p) + DurationPart(p)) == finishes + [DurationPart(p)]
  {
    var last := DurationPart(p);
    assert OneLine(last) by {
      if p.duration > 0 {
        assert last == "`Duration`: " + NatToString(p.duration as int) + "s";
      }
    }
    LinesSingle(last);
    var finishes := if |p.finishedAt| > 0 then ["`Finish at`: " + p.finishedAt] else [];
    assert FinishPart(p) == Joined(finishes);
    LinesJoined(finishes, last);
  }

  /** The pipeline message regrouped line by line. */
  lemma PipelineContentShape(b: PipelineBody)
    ensures var p := b.objectAttributes;
      PipelineContent(b)
      == "# " + b.project.name + "\n"
         + (PipelineLine(p) + "\n" + (StatusLine(p) + "\n" + (StartLine(p) + "\n" + (FinishPart(p) + DurationPart(p)))))
  {
    var p := b.objectAttributes;
    var h, l1, l2, l3 := Heading(b.project.name), PipelineLine(p) + "\n", StatusLine(p) + "\n", StartLine(p) + "\n";
    var f, d := FinishPart(p), DurationPart(p);
    assert PipelineContent(b) == h + l1 + l2 + l3 + f + d;
    RegroupRight(h, l1, l2, l3, f, d);
  }

  /** The kind word reads "tag" exactly for a tag pipeline. */
  lemma PipelineKind(p: PipelineObject)
    ensures StartsWith(PipelineLine(p), "### Pipeline on tag `") <==> p.tag
  {
    var line := PipelineLine(p);
    if !p.tag {
      assert line[16] == 'b';
      assert "### Pipeline on tag `"[16] == 't';
    }
  }

  /** The duration is written in decimal and reads back as the payload's value. */
  lemma DurationDigits(p: PipelineObject)
    requires p.duration > 0
    ensures var part := DurationPart(p);
      && StartsWith(part, "`Duration`: ") && EndsWith(part, "s")
      && (forall c | c in part[12..|part| - 1] :: IsDigit(c))
      && ParseDecimal(part[12..|part| - 1]) == p.duration as int
  {
    var digits := NatToString(p.duration as int);
    var part := DurationPart(p);
    assert part == "`Duration`: " + digits + "s";
    assert part[12..|part| - 1] == digits;
    ParseNatToString(p.duration as int);
  }
}

