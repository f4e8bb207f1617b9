/**
 * The course-card image address that both student pages build with their own
 * copy of `getKeywordsForCourse`: a keyword list picked by the first rule whose
 * needle occurs in the lowercased course name, followed by the name itself with
 * filler phrases removed.
 */
module CourseImages {
  import opened Wrappers
  import opened Text
  import Seqs

  /** `else if (lowerCaseName.includes(needle)) keywords = keywords`. */
  datatype Rule = Rule(needle: string, keywords: string)

  const DefaultKeywords := "technology,learning,code"
  const UrlBase := "https://source.unsplash.com/400x300/?"

  /** The rules whose needle occurs in `name`. */
  function NeedleIn(name: string): Rule -> bool {
    (rule: Rule) => Includes(name, rule.needle)
  }

  /** The index of the first rule whose needle occurs in `name`. */
  function FirstMatch(name: string, rules: seq<Rule>): (r: Option<nat>)
    ensures r.Some? ==> r.value < |rules| && Includes(name, rules[r.value].needle)
    ensures r.Some? ==> forall j :: 0 <= j < r.value ==> !Includes(name, rules[j].needle)
    ensures r.None? <==> forall j :: 0 <= j < |rules| ==> !Includes(name, rules[j].needle)
  {
    Seqs.FirstIndex(rules, NeedleIn(name))
  }

  /** The `if / else if` chain: the first matching rule's keywords, or the default. */
  function Keywords(name: string, rules: seq<Rule>): (k: string)
    ensures FirstMatch(Lower(name), rules).None? ==> k == DefaultKeywords
    ensures FirstMatch(Lower(name), rules).Some? ==> k == rules[FirstMatch(Lower(name), rules).value].keywords
  {
    match FirstMatch(Lower(name), rules)
    case None => DefaultKeywords
    case Some(i) => rules[i].keywords
  }

  /** Adding rules after the existing ones never changes a name an existing rule already matches. */
  lemma FirstMatchAppendHit(name: string, rules: seq<Rule>, more: seq<Rule>)
    requires FirstMatch(name, rules).Some?
    ensures FirstMatch(name, rules + more) == FirstMatch(name, rules)
  {
    Seqs.FirstIndexAppendHit(rules, more, NeedleIn(name));
  }

  /** A name no existing rule matches is decided by the added rules, counted after the existing ones. */
  lemma FirstMatchAppendMiss(name: string, rules: seq<Rule>, more: seq<Rule>)
    requires FirstMatch(name, rules).None?
    ensures FirstMatch(name, more).None? ==> FirstMatch(name, rules + more).None?
    ensures FirstMatch(name, more).Some? ==> FirstMatch(name, rules + more) == Some(|rules| + FirstMatch(name, more).value)
  {
    Seqs.FirstIndexAppendMiss(rules, more, NeedleIn(name));
  }

  /**
   * `lowerCaseName.replace(/p1|p2|.../g, '').trim().replace(/ /g, ',')`: the
   * name with the filler phrases deleted, trimmed, and with every space turned
   * into a comma.
   */
  function SpecificKeywords(name: string, phrases: seq<string>): (r: string)
    requires NonEmptyPhrases(phrases)
    ensures ' ' !in r
    ensures |r| <= |name|
    ensures r != [] ==> !IsWhiteSpace(r[0]) && !IsWhiteSpace(r[|r| - 1])
    ensures NoCapitals(r)
  {
    var t := Trim(RemovePhrases(Lower(name), phrases));
    TrimmedNameFacts(name, phrases);
    CommasForSpaces(t);
    ReplaceChar(t, ' ', ',')
  }

  /** No ASCII capital letter in `s`. */
  predicate NoCapitals(s: string) {
    forall k :: 0 <= k < |s| ==> !('A' <= s[k] <= 'Z')
  }

  /** The trimmed, phrase-free name is lowercase, no longer than the name, and has no outer blanks. */
  lemma TrimmedNameFacts(name: string, phrases: seq<string>)
    requires NonEmptyPhrases(phrases)
    ensures var t := Trim(RemovePhrases(Lower(name), phrases));
      && |t| <= |name|
      && (t != [] ==> !IsWhiteSpace(t[0]) && !IsWhiteSpace(t[|t| - 1]))
      && NoCapitals(t)
  {
    var removed := RemovePhrases(Lower(name), phrases);
    LowerIdempotent(name);
    RemovePhrasesShrinks(Lower(name), phrases);
    RemovePhrasesLowerCase(Lower(name), phrases);
    TrimIsSlice(removed);
    TrimKeepsNoCapitals(removed);
  }

  /** Trimming a string without capitals leaves none. */
  lemma TrimKeepsNoCapitals(s: string)
    requires NoCapitals(s)
    ensures NoCapitals(Trim(s))
  {
    var b := TrimStart(s);
    SuffixKeepsNoCapitals(s, |s| - |b|);
    PrefixKeepsNoCapitals(b, |TrimEnd(b)|);
  }

  lemma SuffixKeepsNoCapitals(s: string, i: nat)
    requires i <= |s| && NoCapitals(s)
    ensures NoCapitals(s[i..])
  {
    assert forall k :: 0 <= k < |s| - i ==> s[i..][k] == s[i + k];
  }

  lemma PrefixKeepsNoCapitals(s: string, j: nat)
    requires j <= |s| && NoCapitals(s)
    ensures NoCapitals(s[..j])
  {
  }

  /** Turning spaces into commas keeps a string's case and, when it is trimmed, its ends. */
  lemma CommasForSpaces(t: string)
    requires t != [] ==> !IsWhiteSpace(t[0]) && !IsWhiteSpace(t[|t| - 1])
    ensures var r := ReplaceChar(t, ' ', ',');
      && (NoCapitals(t) ==> NoCapitals(r))
      && (r != [] ==> r[0] == t[0] && r[|r| - 1] == t[|t| - 1])
  {
  }

  /** Deleting phrases from a lowercase string leaves it lowercase. */
  lemma {:induction false} RemovePhrasesLowerCase(s: string, phrases: seq<string>)
    requires NonEmptyPhrases(phrases)
    requires NoCapitals(s)
    ensures NoCapitals(RemovePhrases(s, phrases))
    decreases |s|
  {
    if s != [] {
      match FirstPrefix(s, phrases)
      case Some(k) => RemovePhrasesLowerCase(s[|phrases[k]|..], phrases);
      case None => RemovePhrasesLowerCase(s[1..], phrases);
    }
  }

  /** `trim` returns a slice of its argument that starts and ends with non-blank characters. */
  lemma TrimIsSlice(s: string)
    ensures exists i, j :: 0 <= i <= j <= |s| && Trim(s) == s[i..j]
    ensures Trim(s) != [] ==> !IsWhiteSpace(Trim(s)[0]) && !IsWhiteSpace(Trim(s)[|Trim(s)| - 1])
  {
    var b := TrimStart(s);
    var t := TrimEnd(b);
    assert t == s[|s| - |b|..|s| - |b| + |t|];
    if t != [] {
      assert t[0] == b[0];
    }
  }

  /** A name with none of the phrases in it loses nothing but its outer blanks. */
  lemma SpecificOfPlainName(name: string, phrases: seq<string>)
    requires NonEmptyPhrases(phrases)
    requires forall j :: 0 <= j < |phrases| ==> !Includes(Lower(name), phrases[j])
    ensures SpecificKeywords(name, phrases) == ReplaceChar(Trim(Lower(name)), ' ', ',')
  {
    RemovePhrasesNoMatch(Lower(name), phrases);
  }

  /** The image address: `${base}${keywords},${specificKeywords}`. */
  function ImageUrl(keywords: string, specific: string): (url: string)
    ensures IsPrefix(UrlBase, url)
  {
    UrlBase + keywords + "," + specific
  }

  /** The query part of an image address. */
  function Query(url: string): string
    requires |url| >= |UrlBase|
  {
    url[|UrlBase|..]
  }

  /** The comma-separated search tags are the keyword tags followed by the course-name tags. */
  lemma ImageUrlTags(keywords: string, specific: string)
    ensures Split(Query(ImageUrl(keywords, specific)), ',') == Split(keywords, ',') + Split(specific, ',')
  {
    assert Query(ImageUrl(keywords, specific)) == keywords + [','] + specific;
    SplitConcat(keywords, specific, ',');
  }
}
