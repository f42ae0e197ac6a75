/** Summary annotation: one article record gains a `summary` field written
    by the configured provider, with a marker string in place of any
    provider failure. */
module Summarizer {
  import opened Text
  import opened Values

  const HealthGuide := "Summarize for a general audience. Cover key findings, who/what, evidence level, risks, and timeline.\n\n"
  const TechGuide := "Summarize clearly. Cover what's new, why it matters, who is affected, numbers, and timeline.\n\n"
  const MaxPromptText := 6000
  const DefaultProvider := "openrouter"
  const NoProvider := "(no provider configured)"

  /** The remote summariser: a prompt in, the summary out, or an exception
      with its message. */
  type Provider = string -> Result<string>

  /** `PROVIDER`: the `LLM_PROVIDER` setting, lower-cased, "openrouter" when
      unset. */
  function ProviderName(setting: Option<string>): (name: string)
    ensures setting.None? ==> name == DefaultProvider
    ensures setting.Some? ==> name == Lower(setting.value)
    ensures setting.Some? ==> |name| == |setting.value|
    ensures forall i :: 0 <= i < |name| ==> !('A' <= name[i] <= 'Z')
  {
    Lower(setting.GetOr(DefaultProvider))
  }

  /** The instructions placed before the article: the health guide exactly
      when the theme is the string "health". */
  function Guide(theme: Value): (guide: string)
    ensures guide == HealthGuide <==> theme == Str("health")
    ensures guide == TechGuide <==> theme != Str("health")
  {
    assert |HealthGuide| != |TechGuide|;
    if theme == Str("health") then HealthGuide else TechGuide
  }

  /** The prompt: guide, title line, then at most `MaxPromptText`
      characters of the article. */
  function Prompt(guide: string, title: Value, text: string): string
  {
    guide + "TITLE: " + Show(title) + "\n\nARTICLE:\n" + Prefix(text, MaxPromptText)
  }

  /** The prompt begins with the guide, shows the title in full after
      "TITLE: ", and ends with the first `MaxPromptText` characters of the
      text, so at most that much of the article is sent. */
  lemma PromptLayout(guide: string, title: Value, text: string)
    ensures var p := Prompt(guide, title, text);
      var head := guide + "TITLE: " + Show(title) + "\n\nARTICLE:\n";
      && p[..|head|] == head
      && p[|head|..] == Prefix(text, MaxPromptText)
      && |p| == |head| + (if |text| < MaxPromptText then |text| else MaxPromptText)
  {
  }

  /** The marker that replaces a provider failure. */
  function ErrorMarker(message: string): string
  {
    "(summarizer_error: " + message + ")"
  }

  /** The summary for a non-empty article: the provider's answer, the
      failure marker when it raises, or the no-provider notice when the
      configured provider is not "openrouter". */
  function SummaryOf(prompt: string, provider: string, openrouter: Provider): (summary: string)
    ensures provider != DefaultProvider ==> summary == NoProvider
    ensures provider == DefaultProvider && openrouter(prompt).Ok? ==> summary == openrouter(prompt).value
    ensures provider == DefaultProvider && openrouter(prompt).Raised? ==>
      summary == ErrorMarker(openrouter(prompt).error)
  {
    if provider == DefaultProvider then
      match openrouter(prompt)
      case Ok(s) => s
      case Raised(e) => ErrorMarker(e)
    else NoProvider
  }

  /** `summarize_item`. Only a `cleaned_text` that is truthy but not a
      string makes it raise (it has no `strip`); every other outcome is the
      item with its `summary` field set. */
  function SummarizeItem(item: Record, provider: string, openrouter: Provider): (r: Result<Record>)
    ensures r.Raised? <==> !Strippable(Get(item, "cleaned_text"))
    ensures r.Ok? ==> r.value.Keys == item.Keys + {"summary"}
    ensures r.Ok? ==> forall k :: k in item && k != "summary" ==> r.value[k] == item[k]
    ensures r.Ok? ==> r.value["summary"].Str?
    ensures r.Ok? && StrippedOr(Get(item, "cleaned_text")).value == "" ==> r.value["summary"] == Str("")
    ensures r.Ok? && StrippedOr(Get(item, "cleaned_text")).value != "" ==>
      var text := StrippedOr(Get(item, "cleaned_text")).value;
      var guide := Guide(GetOr(item, "theme", Str("tech")));
      r.value["summary"] == Str(SummaryOf(Prompt(guide, GetOr(item, "title", Str("")), text), provider, openrouter))
  {
    match StrippedOr(Get(item, "cleaned_text"))
    case Raised(e) => Raised(e)
    case Ok(text) =>
      if text == "" then Ok(item["summary" := Str("")])
      else
        var title := GetOr(item, "title", Str(""));
        var theme := GetOr(item, "theme", Str("tech"));
        var prompt := Prompt(Guide(theme), title, text);
        Ok(item["summary" := Str(SummaryOf(prompt, provider, openrouter))])
  }

  /** An article with blank text is annotated with "" whatever the provider
      does: the provider is not consulted. */
  lemma BlankTextSkipsProvider(item: Record, p1: string, o1: Provider, p2: string, o2: Provider)
    requires Strippable(Get(item, "cleaned_text"))
    requires StrippedOr(Get(item, "cleaned_text")).value == ""
    ensures SummarizeItem(item, p1, o1) == SummarizeItem(item, p2, o2) == Ok(item["summary" := Str("")])
  {
  }

  /** A provider failure never escapes: an article with text and a failing
      provider is annotated with the failure marker. */
  lemma ProviderFailureIsMarked(item: Record, openrouter: Provider)
    requires Get(item, "cleaned_text").Str? && !IsBlank(Get(item, "cleaned_text").s)
    requires forall prompt :: openrouter(prompt).Raised?
    ensures SummarizeItem(item, DefaultProvider, openrouter).Ok?
    ensures var s := SummarizeItem(item, DefaultProvider, openrouter).value["summary"].s;
      |s| >= 20 && s[..19] == "(summarizer_error: " && s[|s| - 1] == ')'
  {
    StripBlank(Get(item, "cleaned_text").s);
    var text := Strip(Get(item, "cleaned_text").s);
    var prompt := Prompt(Guide(GetOr(item, "theme", Str("tech"))), GetOr(item, "title", Str("")), text);
    var e := openrouter(prompt).error;
    assert SummaryOf(prompt, DefaultProvider, openrouter) == ErrorMarker(e);
  }

  /** An item without a theme is written up with the tech guide. */
  lemma MissingThemeIsTech(item: Record)
    requires "theme" !in item
    ensures Guide(GetOr(item, "theme", Str("tech"))) == TechGuide
  {
  }
}
