/** A dictionary from words to definitions, changed in place by Add, Update and Delete,
    each reporting its own typed error. */
module Maps {
  import opened Wrappers

  /** The three errors a dictionary operation can report. */
  datatype DictionaryErr = ErrNotFound | ErrWordExist | ErrWordDoesNotExist {
    /** The message each error carries. */
    function Error(): (message: string)
      ensures this == ErrNotFound ==> message == "could not find word you were looking for"
      ensures this == ErrWordExist ==> message == "can not add word because it already exists"
      ensures this == ErrWordDoesNotExist ==> message == "can not update word because it does not exist"
    {
      match this
      case ErrNotFound => "could not find word you were looking for"
      case ErrWordExist => "can not add word because it already exists"
      case ErrWordDoesNotExist => "can not update word because it does not exist"
    }
  }

  /** Each error carries a message of its own, so tests can tell them apart by message. */
  lemma ErrorMessagesDistinct(e: DictionaryErr, e': DictionaryErr)
    ensures e.Error() == e'.Error() <==> e == e'
  {
    if e != e' {
      assert e.Error()[..5] != e'.Error()[..5] || e.Error()[..20] != e'.Error()[..20]
          || |e.Error()| != |e'.Error()|;
    }
  }

  /** `after` agrees with `before` on every key except possibly `word`. */
  ghost predicate OnlyWordChanged(before: map<string, string>, after: map<string, string>, word: string) {
    forall w :: w != word ==> (w in after <==> w in before) && (w in after ==> after[w] == before[w])
  }

  class Dictionary {
    var words: map<string, string>

    constructor (initial: map<string, string>)
      ensures words == initial
    {
      words := initial;
    }

    /** The definition of `word`, or the empty string and ErrNotFound when it is not a key. */
    method Search(word: string) returns (definition: string, err: Option<DictionaryErr>)
      ensures word in words ==> definition == words[word] && err == None
      ensures word !in words ==> definition == "" && err == Some(ErrNotFound)
    {
      if word !in words {
        return "", Some(ErrNotFound);
      }
      return words[word], None;
    }

    /** Inserts a word that is not yet a key; a word already present is refused with
        ErrWordExist and the dictionary is left as it was. */
    method Add(word: string, definition: string) returns (err: Option<DictionaryErr>)
      modifies this
      ensures old(word in words) ==> err == Some(ErrWordExist) && words == old(words)
      ensures old(word !in words) ==> err == None && words == old(words)[word := definition]
      ensures OnlyWordChanged(old(words), words, word)
    {
      var _, found := Search(word);
      match found {
        case Some(ErrNotFound) =>
          words := words[word := definition];
        case None =>
          return Some(ErrWordExist);
        case Some(_) =>
          // Search reports no error other than ErrNotFound.
          assert false;
      }
      return None;
    }

    /** Replaces the definition of a word that is a key; an absent word is refused with
        ErrWordDoesNotExist and the dictionary is left as it was. */
    method Update(word: string, newDefinition: string) returns (err: Option<DictionaryErr>)
      modifies this
      ensures old(word in words) ==> err == None && words == old(words)[word := newDefinition]
      ensures old(word !in words) ==> err == Some(ErrWordDoesNotExist) && words == old(words)
      ensures OnlyWordChanged(old(words), words, word)
    {
      var _, found := Search(word);
      match found {
        case Some(ErrNotFound) =>
          return Some(ErrWordDoesNotExist);
        case None =>
          words := words[word := newDefinition];
        case Some(_) =>
          // Search reports no error other than ErrNotFound.
          assert false;
      }
      return None;
    }

    /** Removes a word that is a key; an absent word is refused with ErrNotFound and the
        dictionary is left as it was. */
    method Delete(word: string) returns (err: Option<DictionaryErr>)
      modifies this
      ensures old(word in words) ==> err == None && words == old(words) - {word}
      ensures old(word !in words) ==> err == Some(ErrNotFound) && words == old(words)
      ensures word !in words
      ensures OnlyWordChanged(old(words), words, word)
    {
      var _, found := Search(word);
      match found {
        case Some(ErrNotFound) =>
          return Some(ErrNotFound);
        case None =>
          words := words - {word};
        case Some(_) =>
          // Search reports no error other than ErrNotFound.
          assert false;
      }
      return None;
    }
  }

  /** The search test: a word of the dictionary is found, a missing one is reported. */
  method FindScenario() returns (found: string, missing: Option<DictionaryErr>)
    ensures found == "hallo" && missing == Some(ErrNotFound)
  {
    var d := new Dictionary(map["text" := "hallo"]);
    var definition, _ := d.Search("text");
    found := definition;
    var _, e := d.Search("hallo");
    missing := e;
  }

  /** The add test: two new words are accepted, adding the first one again is refused. */
  method AddScenario() returns (first: Option<DictionaryErr>, second: Option<DictionaryErr>,
                                again: Option<DictionaryErr>)
    ensures first == None && second == None && again == Some(ErrWordExist)
  {
    var d := new Dictionary(map[]);
    first := d.Add("hallo", "text");
    second := d.Add("aku", "kamu");
    again := d.Add("hallo", "text");
  }

  /** The update test: a missing word is refused, an existing one gets its new definition. */
  method UpdateScenario() returns (missing: Option<DictionaryErr>, existing: Option<DictionaryErr>,
                                   updated: string)
    ensures missing == Some(ErrWordDoesNotExist) && existing == None
    ensures updated == "new text"
  {
    var d := new Dictionary(map["hallo" := "text"]);
    missing := d.Update("world", "text");
    existing := d.Update("hallo", "new text");
    var definition, _ := d.Search("hallo");
    updated := definition;
  }

  /** The delete test: a missing word is refused, an existing one is removed. */
  method DeleteScenario() returns (missing: Option<DictionaryErr>, existing: Option<DictionaryErr>,
                                   gone: bool)
    ensures missing == Some(ErrNotFound) && existing == None && gone
  {
    var d := new Dictionary(map["hallo" := "text"]);
    missing := d.Delete("world");
    existing := d.Delete("hallo");
    var _, e := d.Search("hallo");
    gone := e == Some(ErrNotFound);
  }
}
