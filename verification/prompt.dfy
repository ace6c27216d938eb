/**
 * Mode selection and prompt assembly in generate_query
 * (query_generators/openai.py:143-169). The one legacy model name gets the
 * whole template filled in as a single prompt; every other model name gets
 * a chat message list built from the template's three sections.
 */
module Prompt {
  import opened Wrappers
  import opened PyStrings
  import opened Template

  /** The only model name that selects the legacy single-prompt mode. */
  const LegacyModel: string := "text-davinci-003"

  /** A Python dict of string keys and values, as its items in insertion order. */
  type Message = seq<(string, string)>

  /** The dict `{"role": role, "content": content}`. */
  function ChatMessage(role: string, content: string): Message {
    [("role", role), ("content", content)]
  }

  /** What is sent to the completion service: a message list or a single prompt. */
  datatype Request = ChatRequest(messages: seq<Message>) | LegacyRequest(prompt: string)

  /**
   * Python's `str.format(user_question=..., table_metadata_string=...)`,
   * applied to a template text, the question and the pruned schema text.
   */
  type Filler = (string, string, string) -> string

  /**
   * The request generate_query builds before calling the service. The
   * schema text is what `prune_metadata_str(question, db_name)` returned.
   */
  function BuildRequest(model: string, template: string, question: string, schema: string, fill: Filler)
    : Result<Request, TemplateError>
  {
    if model != LegacyModel then
      match ParseTemplate(template)
      case Failure(e) => Failure(e)
      case Success(sec) =>
        var user := fill(sec.user, question, schema);
        Success(ChatRequest([
          ChatMessage("system", sec.system),
          ChatMessage("user", user),
          ChatMessage("assistant", sec.assistant)]))
    else
      Success(LegacyRequest(fill(template, question, schema)))
  }

  /**
   * A chat request of exactly three messages with the roles system, user
   * and assistant in that order; the system and assistant contents are the
   * template sections verbatim and the user content is the filled-in text.
   */
  ghost predicate ChatShaped(req: Request, sec: Sections, user: string) {
    && req.ChatRequest?
    && |req.messages| == 3
    && req.messages[0] == ChatMessage("system", sec.system)
    && req.messages[1] == ChatMessage("user", user)
    && req.messages[2] == ChatMessage("assistant", sec.assistant)
  }

  /**
   * The request's mode is decided by the model name alone, and the legacy
   * model's single prompt is the whole template filled in, unsplit.
   */
  lemma ModeSelection(model: string, template: string, question: string, schema: string, fill: Filler)
    requires BuildRequest(model, template, question, schema, fill).Success?
    ensures BuildRequest(model, template, question, schema, fill).value.LegacyRequest? <==> model == LegacyModel
    ensures model == LegacyModel ==>
      BuildRequest(model, template, question, schema, fill).value.prompt == fill(template, question, schema)
  {
  }

  /**
   * A chat template composed from three sections, with no marker inside a
   * section where it would be mistaken for a cut, yields the messages of
   * exactly those sections.
   */
  lemma ComposedTemplateMessages(model: string, sec: Sections, question: string, schema: string, fill: Filler)
    requires model != LegacyModel
    requires !Contains(sec.system, InputMarker)
    requires !Contains(sec.user + ResponseMarker, InputMarker)
    requires !Contains(sec.system + InputMarker + sec.user, ResponseMarker)
    requires !Contains(sec.assistant, ResponseMarker)
    ensures BuildRequest(model, Compose(sec), question, schema, fill).Success?
    ensures ChatShaped(BuildRequest(model, Compose(sec), question, schema, fill).value, sec, fill(sec.user, question, schema))
  {
    ParseCompose(sec);
  }

  /**
   * Chat mode succeeds exactly when the template holds both markers, and
   * then sends three role messages: the text before the first Input marker,
   * the filled-in text from there to the next marker, and the text after
   * the first Response marker up to the next one.
   */
  lemma ChatRequestFromTemplate(model: string, template: string, question: string, schema: string, fill: Filler)
    requires model != LegacyModel
    ensures BuildRequest(model, template, question, schema, fill).Success?
        <==> Contains(template, InputMarker) && Contains(template, ResponseMarker)
    ensures BuildRequest(model, template, question, schema, fill).Success? ==>
      exists sys, user, asst ::
        && TemplateSections(template, sys, user, asst)
        && BuildRequest(model, template, question, schema, fill).value == ChatRequest([
             ChatMessage("system", sys),
             ChatMessage("user", fill(user, question, schema)),
             ChatMessage("assistant", asst)])
  {
    ParseFailsIffMarkerMissing(template);
    if ParseTemplate(template).Success? {
      var sec := ParseTemplate(template).value;
      SystemSection(template);
      UserText(template);
      AssistantText(template);
      assert TemplateSections(template, sec.system, sec.user, sec.assistant);
    }
  }
}
