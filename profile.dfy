/** The profile edit form: the length and character rules of the profile
    schema and the skill list editor. The four URL fields are outside this
    model. */
module Profile {
  import opened JsString
  import opened FormLists

  datatype ProfileData = ProfileData(
    fullName: string, username: string, bio: Option<string>, location: Option<string>, skills: seq<string>)

  datatype Issue =
    | FullNameTooShort | FullNameTooLong
    | UsernameTooShort | UsernameTooLong | UsernameCharset
    | BioTooLong | LocationTooLong
    | TooManySkills

  /** The character class `[a-zA-Z0-9_]`. */
  predicate IsUsernameChar(c: char)
  {
    ('a' <= c <= 'z') || ('A' <= c <= 'Z') || ('0' <= c <= '9') || c == '_'
  }

  /** The regular expression `^[a-zA-Z0-9_]+$`, matched one character at a time. */
  predicate MatchesUsernamePattern(s: string)
  {
    s != [] && IsUsernameChar(s[0]) && (|s| == 1 || MatchesUsernamePattern(s[1..]))
  }

  /** The pattern holds iff the string is non-empty and every character is in the class. */
  lemma {:induction false} UsernamePatternChars(s: string)
    ensures MatchesUsernamePattern(s) <==> s != [] && forall i :: 0 <= i < |s| ==> IsUsernameChar(s[i])
  {
    if |s| > 1 {
      UsernamePatternChars(s[1..]);
      if forall i :: 0 <= i < |s| ==> IsUsernameChar(s[i]) {
        forall i | 0 <= i < |s[1..]| ensures IsUsernameChar(s[1..][i]) {
          assert s[1..][i] == s[i + 1];
        }
      }
      if MatchesUsernamePattern(s) {
        forall i | 0 <= i < |s| ensures IsUsernameChar(s[i]) {
          if i > 0 {
            assert s[i] == s[1..][i - 1];
          }
        }
      }
    }
  }

  /** The issues of the schema, field by field in declaration order. */
  function SchemaIssues(d: ProfileData): (r: seq<Issue>)
  {
    (if |d.fullName| < 2 then [FullNameTooShort] else [])
    + (if |d.fullName| > 50 then [FullNameTooLong] else [])
    + (if |d.username| < 3 then [UsernameTooShort] else [])
    + (if |d.username| > 20 then [UsernameTooLong] else [])
    + (if !MatchesUsernamePattern(d.username) then [UsernameCharset] else [])
    + (if d.bio.Some? && |d.bio.value| > 500 then [BioTooLong] else [])
    + (if d.location.Some? && |d.location.value| > 100 then [LocationTooLong] else [])
    + (if |d.skills| > 20 then [TooManySkills] else [])
  }

  predicate UsernameIssue(i: Issue)
  {
    i == UsernameTooShort || i == UsernameTooLong || i == UsernameCharset
  }

  /** A username passes iff it has 3..20 characters, all letters, digits or underscores. */
  lemma UsernameRule(d: ProfileData)
    ensures (forall i :: i in SchemaIssues(d) ==> !UsernameIssue(i)) <==>
      3 <= |d.username| <= 20 && forall k :: 0 <= k < |d.username| ==> IsUsernameChar(d.username[k])
  {
    UsernamePatternChars(d.username);
    var r := SchemaIssues(d);
    if !(3 <= |d.username| <= 20) {
      assert UsernameTooShort in r || UsernameTooLong in r;
    } else if !MatchesUsernamePattern(d.username) {
      assert UsernameCharset in r;
    }
  }

  /** The whole schema: name 2..50, the username rule, bio at most 500 and
      location at most 100 when given, at most 20 skills. */
  lemma SchemaAccepts(d: ProfileData)
    ensures SchemaIssues(d) == [] <==>
      2 <= |d.fullName| <= 50
      && 3 <= |d.username| <= 20 && (forall k :: 0 <= k < |d.username| ==> IsUsernameChar(d.username[k]))
      && (d.bio.None? || |d.bio.value| <= 500)
      && (d.location.None? || |d.location.value| <= 100)
      && |d.skills| <= 20
  {
    UsernamePatternChars(d.username);
  }

  class ProfileForm {
    var skills: seq<string>
    var currentSkill: string

    constructor()
      ensures skills == [] && currentSkill == ""
    {
      skills := [];
      currentSkill := "";
    }

    method AddSkill()
      modifies this
      ensures skills == AddEntry(old(skills), old(currentSkill)).entries
      ensures currentSkill == AddEntry(old(skills), old(currentSkill)).input
    {
      var edit := AddEntry(skills, currentSkill);
      skills, currentSkill := edit.entries, edit.input;
    }

    method RemoveSkill(skill: string)
      modifies this
      ensures skills == RemoveEntry(old(skills), skill)
      ensures currentSkill == old(currentSkill)
    {
      skills := RemoveEntry(skills, skill);
    }
  }

  /** The 20-skill cap lives only in the schema: the editor accepts a 21st
      skill, and the schema then reports it. */
  lemma SkillCapOnlyInSchema(d: ProfileData, input: string)
    requires |d.skills| == 20 && Trim(input) != [] && Trim(input) !in d.skills
    ensures |AddEntry(d.skills, input).entries| == 21
    ensures TooManySkills in SchemaIssues(d.(skills := AddEntry(d.skills, input).entries))
  {
  }
}
