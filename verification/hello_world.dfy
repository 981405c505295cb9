/** Greeting someone by name in one of three languages. */
module HelloWorld {
  const Spanish := "Spanish"
  const French := "French"
  const EnglishPrefixHallo := "Hallo, "
  const SpanishPrefixHallo := "Hola, "
  const FrenchPrefixHallo := "Bonjour, "

  /** The Spanish and French greetings for those two languages, the English one for any
      other language, including the empty one. */
  function GettingPrefix(language: string): (prefix: string)
    ensures language == Spanish <==> prefix == SpanishPrefixHallo
    ensures language == French <==> prefix == FrenchPrefixHallo
    ensures language != Spanish && language != French <==> prefix == EnglishPrefixHallo
  {
    if language == Spanish then SpanishPrefixHallo
    else if language == French then FrenchPrefixHallo
    else EnglishPrefixHallo
  }

  /** The greeting: the language's prefix followed by the name, or by "World" when the name
      is empty. */
  function SayHallo(name: string, language: string): (greeting: string)
    ensures |greeting| == |GettingPrefix(language)| + (if name == "" then 5 else |name|)
    ensures greeting[..|GettingPrefix(language)|] == GettingPrefix(language)
    ensures greeting[|GettingPrefix(language)|..] == if name == "" then "World" else name
  {
    var prefix := GettingPrefix(language);
    var addressee := if name == "" then "World" else name;
    assert (prefix + addressee)[..|prefix|] == prefix;
    assert (prefix + addressee)[|prefix|..] == addressee;
    prefix + addressee
  }

  /** Two greetings are equal only when they use the same prefix and the same name, except
      that no name and the name "World" greet alike. */
  lemma SayHalloDistinguishes(name: string, language: string, name': string, language': string)
    requires SayHallo(name, language) == SayHallo(name', language')
    ensures GettingPrefix(language) == GettingPrefix(language')
    ensures name == name' || {name, name'} == {"", "World"}
  {
    var p, p' := GettingPrefix(language), GettingPrefix(language');
    var g := SayHallo(name, language);
    // The three prefixes differ in their first two letters, so the greetings fix the prefix.
    assert g[..2] == p[..2] && g[..2] == p'[..2];
    PrefixesDifferEarly(language, language');
    assert g[|p|..] == SayHallo(name', language')[|p'|..];
  }

  lemma PrefixesDifferEarly(language: string, language': string)
    requires GettingPrefix(language)[..2] == GettingPrefix(language')[..2]
    ensures GettingPrefix(language) == GettingPrefix(language')
  {
    assert EnglishPrefixHallo[..2] == ['H', 'a'];
    assert SpanishPrefixHallo[..2] == ['H', 'o'];
    assert FrenchPrefixHallo[..2] == ['B', 'o'];
  }

  /** No name and "World" give the same greeting. */
  lemma EmptyNameIsWorld(language: string)
    ensures SayHallo("", language) == SayHallo("World", language)
  {
    var g, g' := SayHallo("", language), SayHallo("World", language);
    assert g == g[..|GettingPrefix(language)|] + g[|GettingPrefix(language)|..];
    assert g' == g'[..|GettingPrefix(language)|] + g'[|GettingPrefix(language)|..];
  }

  /** The greeting tests. */
  lemma HalloExamples()
    ensures SayHallo("", "") == "Hallo, World"
    ensures SayHallo("Dhany", "") == "Hallo, Dhany"
    ensures SayHallo("Dhany", "Spanish") == "Hola, Dhany"
    ensures SayHallo("Dhany", "French") == "Bonjour, Dhany"
    ensures SayHallo("Dhany", "Italy") == "Hallo, Dhany"
  {
  }
}
