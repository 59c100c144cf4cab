/**
 * The job classifier: a posting is kept when its title names one of the role
 * keywords and its description mentions at least one skill keyword, both
 * compared after lower-casing.
 */
module Classifier {
  import opened Text

  /** Role names, one of which must appear in the lower-cased title. */
  const RoleKeywords: seq<string> := [
    "data analyst", "business analyst", "analytics", "bi analyst", "product analyst",
    "reporting analyst", "research analyst", "marketing analyst"
  ]

  /** Skills and tools counted in the lower-cased description. */
  const SkillKeywords: seq<string> := [
    "sql", "python", "r", "excel", "tableau", "power bi", "looker", "dashboard",
    "data visualization", "etl", "bigquery", "snowflake", "data wrangling",
    "pandas", "numpy", "statistics", "predictive modeling", "regression", "ab testing"
  ]

  /** How many skill keywords the description must mention. */
  const MinSkillMatches: nat := 1

  /** `any(k in text for k in keywords)`. */
  predicate AnyIn(text: string, keywords: seq<string>)
    decreases |keywords|
  {
    |keywords| > 0 && (Contains(text, keywords[0]) || AnyIn(text, keywords[1..]))
  }

  /** `sum(1 for k in keywords if k in text)`: each keyword adds one at most, however often it occurs. */
  function CountIn(text: string, keywords: seq<string>): (n: nat)
    ensures n <= |keywords|
    ensures n > 0 ==> AnyIn(text, keywords)
    ensures AnyIn(text, keywords) ==> n > 0
    decreases |keywords|
  {
    if |keywords| == 0 then 0
    else (if Contains(text, keywords[0]) then 1 else 0) + CountIn(text, keywords[1..])
  }

  /** Number of skill keywords found in the description. */
  function SkillMatches(description: string): nat {
    CountIn(Lower(description), SkillKeywords)
  }

  /**
   * The rule of `is_data_analyst_job` for given keyword lists and threshold:
   * the lower-cased title must contain a role keyword, and the lower-cased
   * description at least `minSkills` different skill keywords.
   */
  predicate Verdict(title: string, description: string, roles: seq<string>, skills: seq<string>, minSkills: nat) {
    var t := Lower(title);
    var d := Lower(description);
    if !AnyIn(t, roles) then false
    else CountIn(d, skills) >= minSkills
  }

  /** `is_data_analyst_job(title, description)`. */
  predicate IsDataAnalystJob(title: string, description: string) {
    Verdict(title, description, RoleKeywords, SkillKeywords, MinSkillMatches)
  }

  /** `AnyIn` is the existential it is named after. */
  lemma {:induction false} AnyInIff(text: string, keywords: seq<string>)
    ensures AnyIn(text, keywords) <==> exists k :: k in keywords && Contains(text, k)
    decreases |keywords|
  {
    if |keywords| > 0 {
      AnyInIff(text, keywords[1..]);
      if Contains(text, keywords[0]) {
        assert keywords[0] in keywords;
      }
      if exists k :: k in keywords && Contains(text, k) {
        var k :| k in keywords && Contains(text, k);
        if k != keywords[0] {
          assert k in keywords[1..];
        }
      }
    }
  }

  /** More text to search never lowers the count. */
  lemma {:induction false} CountInMonotone(text: string, text': string, keywords: seq<string>)
    requires Contains(text', text)
    ensures CountIn(text, keywords) <= CountIn(text', keywords)
    decreases |keywords|
  {
    if |keywords| > 0 {
      if Contains(text, keywords[0]) {
        ContainsTransitive(text', text, keywords[0]);
      }
      CountInMonotone(text, text', keywords[1..]);
    }
  }

  /** The positions of `keywords` whose keyword occurs in `text`. */
  ghost function MatchedAt(text: string, keywords: seq<string>): set<nat> {
    set i: nat | i < |keywords| && Contains(text, keywords[i])
  }

  /** Counting over two keyword lists in turn adds their counts. */
  lemma {:induction false} CountInAppend(text: string, a: seq<string>, b: seq<string>)
    ensures CountIn(text, a + b) == CountIn(text, a) + CountIn(text, b)
    decreases |a|
  {
    if |a| == 0 {
      assert a + b == b;
    } else {
      assert (a + b)[0] == a[0];
      assert (a + b)[1..] == a[1..] + b;
      CountInAppend(text, a[1..], b);
    }
  }

  /**
   * The count is the number of keyword positions whose keyword occurs: each
   * entry adds one at most, however often it occurs in the text.
   */
  lemma {:induction false} CountInIsMatchedAtSize(text: string, keywords: seq<string>)
    ensures CountIn(text, keywords) == |MatchedAt(text, keywords)|
    decreases |keywords|
  {
    if |keywords| == 0 {
      assert MatchedAt(text, keywords) == {};
    } else {
      var n := |keywords| - 1;
      var init := keywords[..n];
      assert keywords == init + [keywords[n]];
      CountInAppend(text, init, [keywords[n]]);
      CountInIsMatchedAtSize(text, init);
      assert [keywords[n]][1..] == [];
      if Contains(text, keywords[n]) {
        assert MatchedAt(text, keywords) == MatchedAt(text, init) + {n};
      } else {
        assert MatchedAt(text, keywords) == MatchedAt(text, init);
      }
    }
  }

  /** The skill count lies between 0 and 19: one for each skill keyword the description contains. */
  lemma SkillMatchesBounds(description: string)
    ensures 0 <= SkillMatches(description) <= 19
    ensures SkillMatches(description) == |MatchedAt(Lower(description), SkillKeywords)|
  {
    CountInIsMatchedAtSize(Lower(description), SkillKeywords);
  }

  /** Without a role keyword in the title the posting is rejected, whatever the description. */
  lemma RejectsWithoutRole(title: string, description: string, roles: seq<string>, skills: seq<string>, minSkills: nat)
    requires forall k :: k in roles ==> !Contains(Lower(title), k)
    ensures !Verdict(title, description, roles, skills, minSkills)
  {
    AnyInIff(Lower(title), roles);
  }

  /**
   * With a threshold of one, the rule accepts exactly when the title names a
   * role and the description names at least one skill.
   */
  lemma VerdictIff(title: string, description: string, roles: seq<string>, skills: seq<string>)
    ensures Verdict(title, description, roles, skills, 1) <==>
      (exists r :: r in roles && Contains(Lower(title), r)) &&
      (exists s :: s in skills && Contains(Lower(description), s))
  {
    AnyInIff(Lower(title), roles);
    AnyInIff(Lower(description), skills);
  }

  /** The classifier accepts exactly when the title names a role and the description names a skill. */
  lemma AcceptsIff(title: string, description: string)
    ensures IsDataAnalystJob(title, description) <==>
      (exists r :: r in RoleKeywords && Contains(Lower(title), r)) &&
      (exists s :: s in SkillKeywords && Contains(Lower(description), s))
  {
    VerdictIff(title, description, RoleKeywords, SkillKeywords);
  }

  /** A title naming the role and a description naming one skill, "SQL", is accepted. */
  lemma OneSkillSuffices()
    ensures IsDataAnalystJob("Data Analyst", "SQL")
  {
    var t, d := Lower("Data Analyst"), Lower("SQL");
    assert t == "data analyst" && d == "sql";
    assert StartsWith(t, RoleKeywords[0]) && StartsWith(d, SkillKeywords[0]);
    VerdictIff("Data Analyst", "SQL", RoleKeywords, SkillKeywords);
    assert RoleKeywords[0] in RoleKeywords && SkillKeywords[0] in SkillKeywords;
  }

  /** "r" is a skill keyword, so any description containing the letter r (or R) counts as naming a skill. */
  lemma LetterRIsASkill(description: string)
    requires Contains(Lower(description), "r")
    ensures SkillMatches(description) >= 1
  {
    assert SkillKeywords[2] == "r";
    AnyInIff(Lower(description), SkillKeywords);
  }

  /** Lower-casing the inputs first does not change the verdict. */
  lemma CaseInsensitive(title: string, description: string, roles: seq<string>, skills: seq<string>, minSkills: nat)
    ensures Verdict(Lower(title), description, roles, skills, minSkills) == Verdict(title, description, roles, skills, minSkills)
    ensures Verdict(title, Lower(description), roles, skills, minSkills) == Verdict(title, description, roles, skills, minSkills)
  {
    LowerIdempotent(title);
    LowerIdempotent(description);
  }

  /** A description that contains an accepted one is accepted too. */
  lemma MonotoneInDescription(title: string, description: string, description': string,
                              roles: seq<string>, skills: seq<string>, minSkills: nat)
    requires Contains(description', description)
    requires Verdict(title, description, roles, skills, minSkills)
    ensures Verdict(title, description', roles, skills, minSkills)
  {
    ContainsLower(description', description);
    CountInMonotone(Lower(description), Lower(description'), skills);
  }

  /** Appending or prepending text to the description keeps an accepted posting accepted. */
  lemma MonotoneUnderExtension(title: string, description: string, before: string, after: string,
                               roles: seq<string>, skills: seq<string>, minSkills: nat)
    requires Verdict(title, description, roles, skills, minSkills)
    ensures Verdict(title, before + description + after, roles, skills, minSkills)
  {
    ContainsInfix(before, description, after);
    MonotoneInDescription(title, description, before + description + after, roles, skills, minSkills);
  }
}
