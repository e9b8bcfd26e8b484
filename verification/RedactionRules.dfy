/** The prefixes and keywords that mark a secret. */
module RedactionRules {
  import opened RedactionModel

  const RULES: seq<Rule> := [
    Prefix(Ascii("hm_dev_"), 1), Prefix(Ascii("hm_rtr_"), 1), Prefix(Ascii("hm_site_"), 1), Prefix(Ascii("sk-"), 8),
    Keyword(Ascii("api_key")), Keyword(Ascii("apikey")), Keyword(Ascii("api-key")), Keyword(Ascii("secret")),
    Keyword(Ascii("password")), Keyword(Ascii("token"))]

  lemma AsciiHeadOnce(s: string)
    requires s != "" && forall i :: 0 <= i < |s| ==> s[i] < 128 as char
    requires forall i :: 0 < i < |s| ==> s[i] != s[0]
    ensures HeadOnce(Ascii(s))
  {
  }

  lemma RulesHeadOnce(k: nat)
    requires k < |RULES|
    ensures HeadOnce(RULES[k].word)
  {
    AsciiHeadOnce("hm_dev_");
    AsciiHeadOnce("hm_rtr_");
    AsciiHeadOnce("hm_site_");
    AsciiHeadOnce("sk-");
    AsciiHeadOnce("api_key");
    AsciiHeadOnce("apikey");
    AsciiHeadOnce("api-key");
    AsciiHeadOnce("secret");
    AsciiHeadOnce("password");
    AsciiHeadOnce("token");
  }
}
