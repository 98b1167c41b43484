/** The deterministic side of utils/chatbot.py: the role/content transcripts
    sent to the language model, the candidate listing of the alternatives
    prompt, and the rule-based fallback used when the model call fails. The
    model itself is a parameter `llm` that answers a call with a reply or
    raises. */
module Chatbot {
  import opened Wrappers
  import opened Seqs
  import opened Text
  import opened Products

  /** One `{"role": ..., "content": ...}` entry of a transcript. */
  datatype Message = Message(role: string, content: string)

  /** The arguments `_call_llm` passes to the completion API. */
  datatype LlmCall = LlmCall(model: string, messages: seq<Message>, temperature: real, maxTokens: int)

  /** The model's answer, or an exception raised by the call. */
  datatype LlmOutcome = Reply(text: string) | Raised

  const DefaultModel := "groq/llama-3.1-8b-instant"

  /** `_get_model_primary()`, given the value of LITELLM_MODEL_PRIMARY. */
  function PrimaryModel(env: Option<string>): (r: string)
    ensures env.Some? ==> r == env.value
    ensures env.None? ==> r == DefaultModel
  {
    env.GetOr(DefaultModel)
  }

  /** `_call_llm(model, messages, max_tokens)`: the request it issues. */
  function Call(model: string, messages: seq<Message>, maxTokens: int): (r: LlmCall)
    ensures r.model == model && r.messages == messages
    ensures r.temperature == 0.4 && r.maxTokens == maxTokens
  {
    LlmCall(model, messages, 0.4, maxTokens)
  }

  const ChatPrompt :=
    "Tu es un assistant en nutrition. Tu donnes des explications générales basées sur des principes de santé "
    + "publique (type PNNS), sans poser de diagnostic médical et sans donner de conseils médicaux personnalisés. "
    + "Si une question relève de la médecine (symptômes graves, traitement), recommande de consulter un "
    + "professionnel de santé."

  const RecommendPrompt :=
    "Tu es un expert en nutrition qui aide à choisir des produits plus sains dans la même catégorie. "
    + "Tu donnes des explications claires et factuelles."

  // ---------------------------------------------------------------- transcripts

  /** `_base_messages(system_prompt, extra_messages)`: the system message,
      then the extra messages in order. */
  method BaseMessages(systemPrompt: string, extra: Option<seq<Message>>) returns (messages: seq<Message>)
    ensures messages == [Message("system", systemPrompt)] + extra.GetOr([])
    ensures |messages| == 1 + |extra.GetOr([])| && messages[0] == Message("system", systemPrompt)
  {
    messages := [Message("system", systemPrompt)];
    if extra.Some? && extra.value != [] {
      messages := messages + extra.value;
    }
  }

  /** The transcript `chat_with_user` sends: the system message, the history
      in its order, then the new user message. */
  function ChatTranscript(userMessage: string, history: seq<Message>): seq<Message> {
    [Message("system", ChatPrompt)] + history + [Message("user", userMessage)]
  }

  /** The message building of `chat_with_user`. */
  method ChatMessages(userMessage: string, history: seq<Message>) returns (messages: seq<Message>)
    ensures messages == ChatTranscript(userMessage, history)
    ensures |messages| == |history| + 2
    ensures messages[0] == Message("system", ChatPrompt)
    ensures messages[1..|history| + 1] == history
    ensures messages[|history| + 1] == Message("user", userMessage)
  {
    messages := BaseMessages(ChatPrompt, None);
    for i := 0 to |history|
      invariant messages == [Message("system", ChatPrompt)] + history[..i]
    {
      var msg := history[i];
      messages := messages + [Message(msg.role, msg.content)];
      PrefixStep(history, i);
    }
    assert history[..|history|] == history;
    messages := messages + [Message("user", userMessage)];
    assert messages[1..|history| + 1] == history;
  }

  /** `chat_with_user(user_message, chat_history)`: the model's answer to the
      transcript; an exception of the call reaches the caller. */
  method ChatWithUser(userMessage: string, history: seq<Message>, modelEnv: Option<string>, llm: LlmCall -> LlmOutcome)
    returns (r: LlmOutcome)
    ensures r == llm(Call(PrimaryModel(modelEnv), ChatTranscript(userMessage, history), 512))
  {
    var messages := ChatMessages(userMessage, history);
    r := llm(Call(PrimaryModel(modelEnv), messages, 512));
  }

  // ---------------------------------------------------------------- prompt for alternatives

  /** `(product.get("nutriscore_grade") or "?").upper()`. */
  function GradeText(grade: Field<string>): string {
    Upper(if Truthy(grade) then grade.v else "?")
  }

  /** `nova if nova is not None else '?'`. */
  function NovaText(nova: Field<int>): string {
    match nova
    case Val(n) => IntToString(n)
    case _ => "?"
  }

  /** `cand.get("nutriments", {}).get(key, "?")` in an f-string; `render` is
      Python's rendering of a number. */
  function NutrientText(m: Nutriments, key: string, render: real -> string): string {
    if key !in m then "?"
    else match m[key]
      case None => "None"
      case Some(v) => render(v)
  }

  /** The listing of candidate number `i`. */
  function CandidateEntry(i: int, c: Product, render: real -> string): string {
    IntToString(i) + ". " + Display(c.productName, "Produit sans nom") + " (" + Display(c.brands, "Marque inconnue") + ")\n"
    + "   Nutri-Score: " + GradeText(c.nutriscoreGrade) + " | NOVA: " + NovaText(c.novaGroup) + "\n"
    + "   Sucre: " + NutrientText(c.nutriments, "sugars_100g", render) + "g/100g | Graisses saturées: "
    + NutrientText(c.nutriments, "saturated-fat_100g", render) + "g/100g\n\n"
  }

  function EntryFor(render: real -> string): (int, Product) -> string {
    (i, c) => CandidateEntry(i, c, render)
  }

  /** The listing of the first five candidates, numbered from 1. */
  function CandidateListing(candidates: seq<Product>, render: real -> string): string {
    Numbered(EntryFor(render), Take(candidates, 5), 1)
  }

  /** The loop of `recommend_alternatives` that fills `candidates_text`. */
  method CandidatesText(candidates: seq<Product>, render: real -> string) returns (text: string)
    ensures text == CandidateListing(candidates, render)
  {
    text := "";
    var first := Take(candidates, 5);
    for k := 0 to |first|
      invariant text == Numbered(EntryFor(render), first[..k], 1)
    {
      var cand := first[k];
      assert Numbered(EntryFor(render), first[..k + 1], 1) == text + EntryFor(render)(k + 1, cand) by {
        NumberedAppend(EntryFor(render), first[..k], cand, 1);
        PrefixStep(first, k);
      }
      text := text + CandidateEntry(k + 1, cand, render);
    }
    assert first[..|first|] == first;
  }

  /** The listing shows at most the first five candidates: the one at
      position `k` comes with number `k + 1` after those before it, and
      candidates past the fifth never change it. */
  lemma CandidateListingNumbering(candidates: seq<Product>, render: real -> string, k: int)
    requires 0 <= k < Min(5, |candidates|)
    ensures var first := Take(candidates, 5);
      CandidateListing(candidates, render) ==
        Numbered(EntryFor(render), first[..k], 1) + (CandidateEntry(k + 1, candidates[k], render) + Numbered(EntryFor(render), first[k + 1..], k + 2))
  {
    NumberedAt(EntryFor(render), Take(candidates, 5), k, 1);
  }

  /** Candidates past the fifth never reach the prompt. */
  lemma CandidateListingFirstFive(candidates: seq<Product>, more: seq<Product>, render: real -> string)
    requires |candidates| >= 5
    ensures CandidateListing(candidates + more, render) == CandidateListing(candidates, render)
  {
    assert (candidates + more)[..5] == candidates[..5];
  }

  /** The first two lines of the user message: name, grade and NOVA group
      of the product. */
  function ProductLines(product: Product): string {
    "Produit actuel: " + Display(product.productName, "Produit") + "\n"
    + "Nutri-Score: " + GradeText(product.nutriscoreGrade) + " | NOVA: " + NovaText(product.novaGroup) + "\n\n"
  }

  /** The closing instructions of the user message. */
  const Instructions :=
    "Compare ces alternatives au produit actuel et recommande les 3-5 meilleures options "
    + "en expliquant brièvement pourquoi elles sont meilleures (meilleur Nutri-Score, moins de sucre, "
    + "moins de graisses saturées, moins ultra-transformé, etc.).\n"
    + "Réponse en français, sous forme de liste à puces avec le nom du produit et une explication courte (1-2 phrases)."

  /** The user message of `recommend_alternatives`. */
  function UserContent(product: Product, candidatesText: string): string {
    ProductLines(product) + "Alternatives possibles:\n" + candidatesText + "\n" + Instructions
  }

  /** The transcript `recommend_alternatives` sends. */
  function RecommendTranscript(product: Product, candidates: seq<Product>, render: real -> string): seq<Message> {
    [Message("system", RecommendPrompt)] + [Message("user", UserContent(product, CandidateListing(candidates, render)))]
  }

  // ---------------------------------------------------------------- fallback

  const NoCandidatesText := "Aucune alternative trouvée pour ce produit."
  const NoBetterText := "Aucune alternative " + "avec un meilleur Nutri-Score trouvée dans cette catégorie."
  const FallbackHeader := "**Alternatives recommandées :**\n\n"

  const BulletTail := " — Meilleur score nutritionnel que le produit actuel."

  /** The bullet of one recommended candidate. */
  function Bullet(c: Product): string {
    "• **" + Display(c.productName, "Produit sans nom") + "** (" + Display(c.brands, "Marque inconnue")
    + ") — Nutri-Score: " + GradeText(c.nutriscoreGrade) + BulletTail
  }

  /** `nutri_val < product_nutri`. */
  function BetterThan(product: Product): Product -> bool {
    c => Value(c) < Value(product)
  }

  /** The bullets of the first five candidates. */
  function Recommendations(product: Product, candidates: seq<Product>): seq<string> {
    Select(BetterThan(product), Bullet, Take(candidates, 5))
  }

  /** What `_generate_fallback_recommendation` returns. */
  function FallbackText(product: Product, candidates: seq<Product>): string {
    if candidates == [] then NoCandidatesText
    else
      var recs := Recommendations(product, candidates);
      if recs == [] then NoBetterText else FallbackHeader + Join(recs, "\n\n")
  }

  /** `_generate_fallback_recommendation(product, candidates)`. */
  method GenerateFallback(product: Product, candidates: seq<Product>) returns (text: string)
    ensures text == FallbackText(product, candidates)
  {
    if candidates == [] {
      return NoCandidatesText;
    }
    var productNutri := Value(product);
    var recommendations: seq<string> := [];
    var first := Take(candidates, 5);
    for k := 0 to |first|
      invariant recommendations == Select(BetterThan(product), Bullet, first[..k])
    {
      var cand := first[k];
      var nutriVal := Value(cand);
      PrefixStep(first, k);
      SelectAppend(BetterThan(product), Bullet, first[..k], cand);
      if nutriVal < productNutri {
        recommendations := recommendations + [Bullet(cand)];
      }
    }
    assert recommendations == Recommendations(product, candidates) by {
      assert first[..|first|] == first;
    }
    if recommendations != [] {
      return FallbackHeader + Join(recommendations, "\n\n");
    } else {
      return NoBetterText;
    }
  }

  /** An empty candidate list has its own message. */
  lemma FallbackWithoutCandidates(product: Product)
    ensures FallbackText(product, []) == NoCandidatesText
  {
  }

  /** The header-led text is never the "no better alternative" message. */
  lemma HeaderNotNoBetter(rest: string)
    ensures FallbackHeader + rest != NoBetterText
  {
    assert (FallbackHeader + rest)[0] == '*';
    assert NoBetterText[0] == 'A';
  }

  /** With candidates, the fallback depends on the bullets alone. */
  lemma FallbackOfBullets(product: Product, candidates: seq<Product>)
    requires candidates != []
    ensures FallbackText(product, candidates) == NoBetterText <==> Recommendations(product, candidates) == []
  {
    var recs := Recommendations(product, candidates);
    if recs != [] {
      HeaderNotNoBetter(Join(recs, "\n\n"));
    }
  }

  /** With candidates, the "no better alternative" message appears exactly
      when none of the first five ranks strictly better than the product. */
  lemma FallbackNoBetter(product: Product, candidates: seq<Product>)
    requires candidates != []
    ensures FallbackText(product, candidates) == NoBetterText <==>
      forall i :: 0 <= i < Min(5, |candidates|) ==> Value(candidates[i]) >= Value(product)
  {
    var first := Take(candidates, 5);
    FallbackOfBullets(product, candidates);
    SelectEmpty(BetterThan(product), Bullet, first);
    assert forall i :: 0 <= i < |first| ==> first[i] == candidates[i];
  }

  /** The bullets are those of the better candidates among the first five,
      one each, in candidate order. */
  lemma RecommendationsExact(product: Product, candidates: seq<Product>)
    ensures Recommendations(product, candidates) == Map(Bullet, Filter(BetterThan(product), Take(candidates, 5)))
  {
    SelectIsMapFilter(BetterThan(product), Bullet, Take(candidates, 5));
  }

  /** At most five bullets, and one for each better candidate among the
      first five. */
  lemma RecommendationsCover(product: Product, candidates: seq<Product>)
    ensures var recs := Recommendations(product, candidates);
      |recs| <= 5 &&
      forall j :: 0 <= j < Min(5, |candidates|) && Value(candidates[j]) < Value(product) ==> Bullet(candidates[j]) in recs
  {
    var first := Take(candidates, 5);
    SelectCover(BetterThan(product), Bullet, first);
    assert forall j :: 0 <= j < |first| ==> first[j] == candidates[j];
  }

  /** Otherwise the header comes first, then one bullet for each of the first
      five candidates that ranks strictly better, in candidate order, and
      none for the others. */
  lemma FallbackBullets(product: Product, candidates: seq<Product>, i: int)
    requires 0 <= i < Min(5, |candidates|) && Value(candidates[i]) < Value(product)
    ensures var recs := Recommendations(product, candidates);
      FallbackText(product, candidates) == FallbackHeader + Join(recs, "\n\n") &&
      recs == Map(Bullet, Filter(BetterThan(product), Take(candidates, 5))) &&
      |recs| <= 5 &&
      forall j :: 0 <= j < Min(5, |candidates|) && Value(candidates[j]) < Value(product) ==> Bullet(candidates[j]) in recs
  {
    RecommendationsExact(product, candidates);
    RecommendationsCover(product, candidates);
    assert Bullet(candidates[i]) in Recommendations(product, candidates);
  }

  /** A product graded A gets no recommendation from the fallback. */
  lemma FallbackBestGrade(product: Product, candidates: seq<Product>)
    requires Value(product) == 1 && candidates != []
    ensures FallbackText(product, candidates) == NoBetterText
  {
    forall i | 0 <= i < Min(5, |candidates|)
      ensures Value(candidates[i]) >= Value(product)
    {
      assert Value(candidates[i]) >= 1;
    }
    FallbackNoBetter(product, candidates);
  }

  /** A single candidate that ranks better gets a one-bullet message naming
      it. */
  lemma FallbackSingle(product: Product, c: Product)
    requires Value(c) < Value(product)
    ensures FallbackText(product, [c]) == FallbackHeader + Bullet(c)
  {
    assert Take([c], 5) == [c];
    SelectAppend(BetterThan(product), Bullet, [], c);
    assert [] + [c] == [c];
  }

  // ---------------------------------------------------------------- recommend_alternatives

  /** `recommend_alternatives(product, candidates)`: the model's answer to the
      prompt listing the first five candidates, or the fallback text when the
      call raises. */
  method RecommendAlternatives(product: Product, candidates: seq<Product>, render: real -> string,
                               modelEnv: Option<string>, llm: LlmCall -> LlmOutcome)
    returns (text: string)
    ensures var outcome := llm(Call(PrimaryModel(modelEnv), RecommendTranscript(product, candidates, render), 800));
      (outcome.Reply? ==> text == outcome.text) &&
      (outcome.Raised? ==> text == FallbackText(product, candidates))
  {
    var candidatesText := CandidatesText(candidates, render);
    var userContent := UserContent(product, candidatesText);
    var messages := BaseMessages(RecommendPrompt, Some([Message("user", userContent)]));
    var outcome := llm(Call(PrimaryModel(modelEnv), messages, 800));
    match outcome
    case Reply(t) =>
      text := t;
    case Raised =>
      text := GenerateFallback(product, candidates);
  }
}
