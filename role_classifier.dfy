/** The keyword rules by which the page decides which interview categories
    suit the user's resume and job description. */
module RoleClassifier {
  import opened Text

  const TechnicalKeywords: seq<string> := [
    "engineer", "developer", "software", "swe", "programming",
    "frontend", "backend", "full stack", "devops", "data engineer"]

  const ProductKeywords: seq<string> := [
    "product manager", "product owner", "pm ", "product management"]

  const DataKeywords: seq<string> := [
    "data scientist", "data analyst", "machine learning", "ai ", "analytics"]

  /** Some keyword of the list is a substring of the text. */
  predicate MentionsAny(text: string, keywords: seq<string>)
  {
    exists k :: 0 <= k < |keywords| && Contains(text, keywords[k])
  }

  /** The text the rules read: both fields joined by a space, lower-cased. */
  function RoleText(customContext: string, jobDescription: string): (text: string)
    ensures |text| == |customContext| + 1 + |jobDescription|
    ensures text[..|customContext|] == Lower(customContext)
    ensures text[|customContext|] == ' '
    ensures text[|customContext| + 1..] == Lower(jobDescription)
    ensures NoUpper(text)
  {
    LowerConcat(customContext + " ", jobDescription);
    LowerConcat(customContext, " ");
    Lower(customContext + " " + jobDescription)
  }

  predicate IsTechnical(text: string) { MentionsAny(text, TechnicalKeywords) }

  predicate IsProduct(text: string) { MentionsAny(text, ProductKeywords) }

  predicate IsData(text: string) { MentionsAny(text, DataKeywords) }

  /** The categories for the three role flags, in the order the rules add
      them: always "Behavioral" first, then "Technical" and "Coding" for a
      technical role, "Technical" for a product role, "Technical" and "Coding"
      for a data role. Duplicates stay. */
  function CategoryList(technical: bool, product: bool, data: bool): (cs: seq<string>)
    ensures 1 <= |cs| <= 6 && cs[0] == "Behavioral"
    ensures "Technical" in cs <==> technical || product || data
    ensures "Coding" in cs <==> technical || data
    ensures forall c :: c in cs ==> c in ["Behavioral", "Technical", "Coding"]
  {
    ["Behavioral"] +
    (if technical then ["Technical", "Coding"] else []) +
    (if product then ["Technical"] else []) +
    (if data then ["Technical", "Coding"] else [])
  }

  /** Duplicates are kept: "Technical" appears once per matching rule of any
      kind, "Coding" once per technical or data rule, "Behavioral" once. */
  lemma CategoryCounts(technical: bool, product: bool, data: bool)
    ensures var cs := CategoryList(technical, product, data);
      && multiset(cs)["Behavioral"] == 1
      && multiset(cs)["Technical"] ==
           (if technical then 1 else 0) + (if product then 1 else 0) + (if data then 1 else 0)
      && multiset(cs)["Coding"] == (if technical then 1 else 0) + (if data then 1 else 0)
  {
  }

  /** The categories for a role text. */
  function Categories(text: string): seq<string>
  {
    CategoryList(IsTechnical(text), IsProduct(text), IsData(text))
  }

  /** A keyword of a concatenation of lists is a keyword of one of them. */
  lemma MentionsAnyConcat(text: string, a: seq<string>, b: seq<string>)
    ensures MentionsAny(text, a + b) <==> MentionsAny(text, a) || MentionsAny(text, b)
  {
    if MentionsAny(text, a + b) {
      var k :| 0 <= k < |a + b| && Contains(text, (a + b)[k]);
      if k >= |a| {
        assert (a + b)[k] == b[k - |a|];
      }
    }
    if MentionsAny(text, a) {
      var k :| 0 <= k < |a| && Contains(text, a[k]);
      assert (a + b)[k] == a[k];
    }
    if MentionsAny(text, b) {
      var k :| 0 <= k < |b| && Contains(text, b[k]);
      assert (a + b)[|a| + k] == b[k];
    }
  }

  /** The categories in terms of the keywords: always "Behavioral" first,
      "Technical" exactly when the text mentions a keyword of any list, and
      "Coding" exactly when it mentions a technical or a data keyword. */
  lemma CategoriesFromKeywords(text: string)
    ensures var cs := Categories(text);
      && cs[0] == "Behavioral"
      && ("Technical" in cs <==> MentionsAny(text, TechnicalKeywords + ProductKeywords + DataKeywords))
      && ("Coding" in cs <==> MentionsAny(text, TechnicalKeywords + DataKeywords))
  {
    MentionsAnyConcat(text, TechnicalKeywords + ProductKeywords, DataKeywords);
    MentionsAnyConcat(text, TechnicalKeywords, ProductKeywords);
    MentionsAnyConcat(text, TechnicalKeywords, DataKeywords);
  }

  /** "data engineer" never decides anything on its own: any text that
      contains it contains "engineer" too. */
  lemma DataEngineerImpliesEngineer(text: string)
    requires Contains(text, "data engineer")
    ensures Contains(text, "engineer")
  {
    ContainsInfix(text, "data engineer", 5, 13);
    assert "data engineer"[5..13] == "engineer";
  }

  /** The keyword "pm " matches across the join: a resume whose last two
      letters are "pm" (in either case) marks the role as a product role. */
  lemma TrailingPmIsProduct(customContext: string, jobDescription: string)
    requires |customContext| >= 2
    requires LowerChar(customContext[|customContext| - 2]) == 'p'
    requires LowerChar(customContext[|customContext| - 1]) == 'm'
    ensures IsProduct(RoleText(customContext, jobDescription))
  {
    var text := RoleText(customContext, jobDescription);
    var n := |customContext|;
    assert text[n - 2..n + 1] == "pm ";
    assert OccursAt(text, ProductKeywords[2], n - 2);
  }

  /** Letter case in either field makes no difference to the categories. */
  lemma CaseInsensitive(c1: string, j1: string, c2: string, j2: string)
    requires Lower(c1) == Lower(c2) && Lower(j1) == Lower(j2)
    ensures Categories(RoleText(c1, j1)) == Categories(RoleText(c2, j2))
  {
    var t1, t2 := RoleText(c1, j1), RoleText(c2, j2);
    assert t1 == t1[..|c1|] + [' '] + t1[|c1| + 1..];
    assert t2 == t2[..|c2|] + [' '] + t2[|c2| + 1..];
  }
}
