/**
 * The chat-completion request the service sends to the provider: a fixed
 * model, JSON-object response mode, a token cap, the system instruction and
 * one user message.
 */
module LlmRequest {
  import opened Values
  import opened RecipeRecords

  datatype Role = SystemRole | UserRole

  datatype Message = Message(role: Role, content: string)

  datatype ChatRequest = ChatRequest(
    model: string,
    responseFormat: string,
    messages: seq<Message>,
    maxTokens: nat)

  const MODEL: string := "gpt-4.1-mini"
  const JSON_OBJECT: string := "json_object"
  const MAX_TOKENS: nat := 2000
  const ORIGINAL_RECIPE_MARKER: string := "ORIGINAL RECIPE:"

  /**
   * The fixed system instruction. Its wording in the application
   * (RecipeLlmInstruction) is not part of this model; this text stands for it.
   */
  const SYSTEM_PROMPT: string :=
    "Reply with one JSON object {\"recipe\": {...}} whose recipe has the keys title, description, "
    + "instructions, ingredients (objects with name, amount, category), cuisine, difficulty, tags, "
    + "prep_time, cook_time and servings."

  /** The content of the first message with the given role (`messages.find { |m| m[:role] == role }`). */
  function ContentOf(messages: seq<Message>, role: Role): Option<string> {
    if messages == [] then None
    else if messages[0].role == role then Some(messages[0].content)
    else ContentOf(messages[1..], role)
  }

  /** The request shape shared by generate and update: only the user message differs. */
  function Chat(userContent: string): (r: ChatRequest)
    ensures r.model == MODEL && r.responseFormat == JSON_OBJECT && r.maxTokens == MAX_TOKENS
    ensures |r.messages| == 2 && r.messages[0].role == SystemRole && r.messages[1].role == UserRole
    ensures ContentOf(r.messages, SystemRole) == Some(SYSTEM_PROMPT)
    ensures ContentOf(r.messages, UserRole) == Some(userContent)
  {
    var messages := [Message(SystemRole, SYSTEM_PROMPT), Message(UserRole, userContent)];
    assert messages[1..][0].role == UserRole;
    ChatRequest(MODEL, JSON_OBJECT, messages, MAX_TOKENS)
  }

  /** The request for a new recipe: the user message is the prompt, verbatim. */
  function GenerateRequest(prompt: string): (r: ChatRequest)
    ensures ContentOf(r.messages, UserRole) == Some(prompt)
    ensures ContentOf(r.messages, SystemRole) == Some(SYSTEM_PROMPT)
    ensures r.model == MODEL && r.responseFormat == JSON_OBJECT && r.maxTokens == MAX_TOKENS
    ensures |r.messages| == 2 && r.messages[0].role == SystemRole && r.messages[1].role == UserRole
  {
    Chat(prompt)
  }

  /** The identifying fields of a recipe, one per line. */
  function Render(original: Recipe): (t: string)
    ensures Contains(t, Text(original.title))
  {
    var rest := "\nDescription: " + Text(original.description)
      + "\nCuisine: " + Text(original.cuisine)
      + "\nDifficulty: " + Text(original.difficulty)
      + "\nServings: " + Text(original.servings);
    ContainsInfix("Title: ", Text(original.title), rest);
    "Title: " + Text(original.title) + rest
  }

  /**
   * The user message of an update: the marked rendering of the recipe as it
   * stands, then the requested change.
   */
  function UpdateMessage(prompt: string, original: Recipe): (m: string)
    ensures Contains(m, prompt)
    ensures Contains(m, Text(original.title))
    ensures Contains(m, ORIGINAL_RECIPE_MARKER)
  {
    var body := Render(original);
    MessageParts(ORIGINAL_RECIPE_MARKER, body, "\n\nREQUESTED CHANGE:\n", prompt, Text(original.title));
    ORIGINAL_RECIPE_MARKER + "\n" + body + "\n\nREQUESTED CHANGE:\n" + prompt
  }

  lemma MessageParts(marker: string, body: string, tail: string, prompt: string, title: string)
    requires Contains(body, title)
    ensures var m := marker + "\n" + body + tail + prompt;
      Contains(m, prompt) && Contains(m, title) && Contains(m, marker)
  {
    var head := marker + "\n";
    var m := head + body + tail + prompt;
    ContainsInfix(head + body + tail, prompt, "");
    assert head + body + tail + prompt + "" == m;
    ContainsExtend(head, body, tail + prompt, title);
    assert head + body + (tail + prompt) == m;
    ContainsInfix("", marker, "\n" + body + tail + prompt);
    assert "" + marker + ("\n" + body + tail + prompt) == m;
  }

  /** The request for revising `original`. */
  function UpdateRequest(prompt: string, original: Recipe): (r: ChatRequest)
    ensures ContentOf(r.messages, UserRole).Some?
    ensures Contains(ContentOf(r.messages, UserRole).value, prompt)
    ensures Contains(ContentOf(r.messages, UserRole).value, Text(original.title))
    ensures Contains(ContentOf(r.messages, UserRole).value, ORIGINAL_RECIPE_MARKER)
    ensures ContentOf(r.messages, SystemRole) == Some(SYSTEM_PROMPT)
    ensures r.model == MODEL && r.responseFormat == JSON_OBJECT && r.maxTokens == MAX_TOKENS
  {
    Chat(UpdateMessage(prompt, original))
  }

  /** The update of the recipe titled "Old Title" with "Make it spicier". */
  lemma SpicierExample(original: Recipe)
    requires original.title == Str("Old Title")
    ensures var user := ContentOf(UpdateRequest("Make it spicier", original).messages, UserRole).value;
      Contains(user, "Make it spicier") && Contains(user, "Old Title") && Contains(user, "ORIGINAL RECIPE:")
  {
  }
}
