/** Two pure helpers of the home page: the service-card emoji chosen from
    the service title, and the shortened bio of the hero section. */
module Services {
  import opened JsString

  const WebIcon: string := "\U{1F310}"
  const MobileIcon: string := "\U{1F4F1}"
  const ApiIcon: string := "\U{2699}\U{FE0F}"
  const DesignIcon: string := "\U{1F3A8}"
  const DefaultIcon: string := "\U{1F4BC}"

  /** `title.indexOf(pat) !== -1`. */
  predicate Mentions(title: string, pat: string)
    ensures Mentions(title, pat) <==> Contains(title, pat)
  {
    IndexOfSubstring(title, pat) != -1
  }

  /** `getServiceEmoji(title)`: the emoji of the first rule whose keyword
      occurs in the title (case-sensitive), the briefcase otherwise. */
  function ServiceEmoji(title: string): (r: string)
    ensures Contains(title, "Web") ==> r == WebIcon
    ensures !Contains(title, "Web") && Contains(title, "Mobil") ==> r == MobileIcon
    ensures !Contains(title, "Web") && !Contains(title, "Mobil") && Contains(title, "API") ==> r == ApiIcon
    ensures (&& !Contains(title, "Web") && !Contains(title, "Mobil") && !Contains(title, "API")
             && (Contains(title, "UI") || Contains(title, "Tasarim"))) ==> r == DesignIcon
    ensures r == DefaultIcon <==>
      !Contains(title, "Web") && !Contains(title, "Mobil") && !Contains(title, "API")
      && !Contains(title, "UI") && !Contains(title, "Tasarim")
  {
    if Mentions(title, "Web") then WebIcon
    else if Mentions(title, "Mobil") then MobileIcon
    else if Mentions(title, "API") then ApiIcon
    else if Mentions(title, "UI") || Mentions(title, "Tasarim") then DesignIcon
    else DefaultIcon
  }

  /** A rule of the emoji table: any of `keywords` selects `icon`. */
  datatype Rule = Rule(keywords: seq<string>, icon: string)

  /** The emoji table in priority order. */
  const Rules: seq<Rule> := [
    Rule(["Web"], WebIcon),
    Rule(["Mobil"], MobileIcon),
    Rule(["API"], ApiIcon),
    Rule(["UI", "Tasarim"], DesignIcon)
  ]

  ghost predicate Matches(rule: Rule, title: string) {
    exists k :: 0 <= k < |rule.keywords| && Contains(title, rule.keywords[k])
  }

  /** Reference reading of a priority table: the first matching rule wins. */
  ghost function FirstMatch(rules: seq<Rule>, title: string, default: string): string {
    if rules == [] then default
    else if Matches(rules[0], title) then rules[0].icon
    else FirstMatch(rules[1..], title, default)
  }

  /** `getServiceEmoji` is the first-match reading of the table. */
  lemma ServiceEmojiIsFirstMatch(title: string)
    ensures ServiceEmoji(title) == FirstMatch(Rules, title, DefaultIcon)
  {
    var rs := Rules;
    var d := DefaultIcon;
    assert rs[1..][1..][1..][1..] == [];
    assert rs[1..][0] == rs[1] && rs[1..][1..][0] == rs[2] && rs[1..][1..][1..][0] == rs[3];
    assert Matches(rs[0], title) <==> Contains(title, "Web") by {
      assert rs[0].keywords[0] == "Web";
    }
    assert Matches(rs[1], title) <==> Contains(title, "Mobil") by {
      assert rs[1].keywords[0] == "Mobil";
    }
    assert Matches(rs[2], title) <==> Contains(title, "API") by {
      assert rs[2].keywords[0] == "API";
    }
    assert Matches(rs[3], title) <==> Contains(title, "UI") || Contains(title, "Tasarim") by {
      assert rs[3].keywords[0] == "UI" && rs[3].keywords[1] == "Tasarim";
    }
    assert FirstMatch(rs[1..][1..][1..], title, d) == if Matches(rs[3], title) then DesignIcon else d;
    assert FirstMatch(rs[1..][1..], title, d)
      == if Matches(rs[2], title) then ApiIcon else FirstMatch(rs[1..][1..][1..], title, d);
    assert FirstMatch(rs[1..], title, d)
      == if Matches(rs[1], title) then MobileIcon else FirstMatch(rs[1..][1..], title, d);
  }

  const BioLimit: nat := 150
  const Ellipsis: string := "..."

  /** The hero's short bio: `bio.substring(0, 150) + '...'`, where 150
      counts UTF-16 code units. The ellipsis is appended even when nothing
      was cut. */
  function ShortBio(bio: string): (r: string)
    ensures |r| >= 3 && r[|r| - 3..] == Ellipsis
    ensures r[..|r| - 3] <= bio
    ensures Length(r) <= BioLimit + 3
    ensures Length(bio) <= BioLimit ==> r == bio + Ellipsis
    ensures |r| - 3 < |bio| ==> Length(r[..|r| - 3]) + CodeUnits(bio[|r| - 3]) > BioLimit
  {
    var cut := Prefix(bio, BioLimit);
    LengthAppend(cut, Ellipsis);
    assert (cut + Ellipsis)[..|cut|] == cut;
    cut + Ellipsis
  }
}
