/** The message envelope of buildMsg (gitlab.go:221-226): the content is
    spliced, exactly as it is, into one of two fixed JSON templates. */
module Envelope {
  import opened Strings

  /** The markdown template up to its %s. */
  const MarkdownOpen: string := "{\"msgtype\": \"markdown\", \"markdown\":{\"content\": \""

  /** The text template up to its %s. */
  const TextOpen: string := "{\"msgtype\": \"text\", \"text\":{\"content\": \""

  /** What both templates have after their %s. */
  const Close: string := "\"}}"

  /** Both templates begin with {"msgtype": " (13 characters). */
  const TypeAt: nat := 13

  function Open(markdown: bool): string {
    if markdown then MarkdownOpen else TextOpen
  }

  /** The envelope a message travels in; `markdown` picks the template. */
  function BuildMsg(content: string, markdown: bool): (msg: string)
    ensures StartsWith(msg, Open(markdown)) && EndsWith(msg, Close)
    ensures |msg| == |Open(markdown)| + |content| + |Close|
    ensures msg[|Open(markdown)|..|msg| - |Close|] == content
  {
    var msg := Open(markdown) + content + Close;
    assert msg[..|Open(markdown)|] == Open(markdown);
    assert msg[|msg| - |Close|..] == Close;
    assert msg[|Open(markdown)|..|msg| - |Close|] == content;
    msg
  }

  datatype Message = Message(markdown: bool, content: string)

  /** Reads an envelope back: which template it is, and the content between
      the template's two halves; None for anything else. */
  function ParseEnvelope(msg: string): (r: Option<Message>)
    ensures r.Some? ==> BuildMsg(r.value.content, r.value.markdown) == msg
  {
    if |MarkdownOpen| + |Close| <= |msg| && StartsWith(msg, MarkdownOpen) && EndsWith(msg, Close) then
      var content := msg[|MarkdownOpen|..|msg| - |Close|];
      assert msg == MarkdownOpen + content + Close by {
        assert msg == msg[..|MarkdownOpen|] + content + msg[|msg| - |Close|..];
      }
      Some(Message(true, content))
    else if |TextOpen| + |Close| <= |msg| && StartsWith(msg, TextOpen) && EndsWith(msg, Close) then
      var content := msg[|TextOpen|..|msg| - |Close|];
      assert msg == TextOpen + content + Close by {
        assert msg == msg[..|TextOpen|] + content + msg[|msg| - |Close|..];
      }
      Some(Message(false, content))
    else
      None
  }

  /** The two templates part at the message type. */
  lemma TemplatesDiffer()
    ensures TypeAt < |MarkdownOpen| && TypeAt < |TextOpen|
    ensures MarkdownOpen[TypeAt] == 'm' && TextOpen[TypeAt] == 't'
  {
  }

  /** Every envelope reads back as the template and the content it was built
      from: the content goes in verbatim, with no escaping. */
  lemma ParseBuildMsg(content: string, markdown: bool)
    ensures ParseEnvelope(BuildMsg(content, markdown)) == Some(Message(markdown, content))
  {
    var msg := BuildMsg(content, markdown);
    if !markdown {
      TemplatesDiffer();
      assert msg[TypeAt] == 't';
      assert !StartsWith(msg, MarkdownOpen);
    }
  }

  /** Different contents give different envelopes. */
  lemma BuildMsgInjective(c1: string, c2: string, markdown: bool)
    requires BuildMsg(c1, markdown) == BuildMsg(c2, markdown)
    ensures c1 == c2
  {
    ParseBuildMsg(c1, markdown);
    ParseBuildMsg(c2, markdown);
  }
}
