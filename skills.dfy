/**
  `ResumeParser.extract_skills`: two fixed taxonomies, each entry a display
  name and its surface forms, searched for as whole words in the lower-cased
  text. Entries whose source form is written with explicit `\b` anchors
  are the same literal wrapped in word boundaries, so every form is stored
  here as the bare literal. Display names are stored already passed through
  `str.title`.
 */
module Skills {
  import opened Chars
  import opened Strings
  import opened Ordering

  datatype Skill = Skill(name: string, forms: seq<string>)

  datatype SkillSet = SkillSet(technical: seq<string>, soft: seq<string>, totalCount: nat)

  /** `technical_skills`, in the source's order. */
  const TechnicalSkills: seq<Skill> :=
    [
      Skill("Python", ["python"]),
      Skill("Java", ["java", "javase", "javaee"]),
      Skill("Javascript", ["javascript", "js"]),
      Skill("C++", ["c++", "cpp"]),
      Skill("C#", ["c#", "csharp"]),
      Skill("C", ["c"]),
      Skill("Ruby", ["ruby"]),
      Skill("Php", ["php"]),
      Skill("Swift", ["swift"]),
      Skill("Kotlin", ["kotlin"]),
      Skill("Go", ["golang", "go"]),
      Skill("Rust", ["rust"]),
      Skill("Typescript", ["typescript", "ts"]),
      Skill("R", ["r"]),
      Skill("Matlab", ["matlab"]),
      Skill("Scala", ["scala"]),
      Skill("Html", ["html", "html5"]),
      Skill("Css", ["css", "css3"]),
      Skill("React", ["react", "reactjs", "react.js"]),
      Skill("Angular", ["angular", "angularjs"]),
      Skill("Vue", ["vue", "vuejs", "vue.js"]),
      Skill("Node.Js", ["node.js", "nodejs", "node"]),
      Skill("Express", ["express", "expressjs", "express.js"]),
      Skill("Django", ["django"]),
      Skill("Flask", ["flask"]),
      Skill("Spring", ["spring", "spring boot", "springboot"]),
      Skill("Asp.Net", ["asp.net", "aspnet"]),
      Skill("Jquery", ["jquery"]),
      Skill("Bootstrap", ["bootstrap"]),
      Skill("Tailwind", ["tailwind", "tailwindcss"]),
      Skill("Sql", ["sql"]),
      Skill("Mysql", ["mysql"]),
      Skill("Postgresql", ["postgresql", "postgres"]),
      Skill("Mongodb", ["mongodb", "mongo"]),
      Skill("Oracle", ["oracle db", "oracle"]),
      Skill("Redis", ["redis"]),
      Skill("Cassandra", ["cassandra"]),
      Skill("Dynamodb", ["dynamodb"]),
      Skill("Sqlite", ["sqlite"]),
      Skill("Firebase", ["firebase"]),
      Skill("Nosql", ["nosql"]),
      Skill("Machine Learning", ["machine learning", "ml"]),
      Skill("Deep Learning", ["deep learning", "dl"]),
      Skill("Tensorflow", ["tensorflow"]),
      Skill("Pytorch", ["pytorch"]),
      Skill("Keras", ["keras"]),
      Skill("Scikit-Learn", ["scikit-learn", "sklearn", "scikit learn"]),
      Skill("Pandas", ["pandas"]),
      Skill("Numpy", ["numpy"]),
      Skill("Opencv", ["opencv"]),
      Skill("Nlp", ["nlp", "natural language processing"]),
      Skill("Computer Vision", ["computer vision", "cv"]),
      Skill("Neural Networks", ["neural networks", "neural network", "nn"]),
      Skill("Ai", ["artificial intelligence", "ai"]),
      Skill("Aws", ["aws", "amazon web services"]),
      Skill("Azure", ["azure", "microsoft azure"]),
      Skill("Gcp", ["gcp", "google cloud"]),
      Skill("Google Cloud", ["google cloud platform", "google cloud"]),
      Skill("Docker", ["docker"]),
      Skill("Kubernetes", ["kubernetes", "k8s"]),
      Skill("Jenkins", ["jenkins"]),
      Skill("Git", ["git"]),
      Skill("Github", ["github"]),
      Skill("Gitlab", ["gitlab"]),
      Skill("Ci/Cd", ["ci/cd", "ci cd", "cicd"]),
      Skill("Terraform", ["terraform"]),
      Skill("Ansible", ["ansible"]),
      Skill("Rest Api", ["rest api", "restful", "rest"]),
      Skill("Graphql", ["graphql"]),
      Skill("Microservices", ["microservices", "micro services"]),
      Skill("Agile", ["agile"]),
      Skill("Scrum", ["scrum"]),
      Skill("Linux", ["linux"]),
      Skill("Unix", ["unix"]),
      Skill("Bash", ["bash"]),
      Skill("Power Bi", ["power bi", "powerbi"]),
      Skill("Tableau", ["tableau"]),
      Skill("Excel", ["excel", "ms excel"]),
      Skill("Data Structures", ["data structures", "dsa"]),
      Skill("Algorithms", ["algorithms", "algo"]),
      Skill("Oop", ["oop", "object oriented"]),
      Skill("Testing", ["testing", "unit testing"])
    ]

  /** `soft_skills`, in the source's order. */
  const SoftSkills: seq<Skill> :=
    [
      Skill("Leadership", ["leadership", "leader", "leading"]),
      Skill("Communication", ["communication", "communicate"]),
      Skill("Teamwork", ["teamwork", "team work", "team player"]),
      Skill("Problem Solving", ["problem solving", "problem-solving"]),
      Skill("Critical Thinking", ["critical thinking"]),
      Skill("Time Management", ["time management"]),
      Skill("Adaptability", ["adaptability", "adaptable"]),
      Skill("Collaboration", ["collaboration", "collaborate"]),
      Skill("Creativity", ["creativity", "creative"]),
      Skill("Analytical", ["analytical", "analysis"]),
      Skill("Presentation", ["presentation"]),
      Skill("Negotiation", ["negotiation"]),
      Skill("Conflict Resolution", ["conflict resolution"]),
      Skill("Decision Making", ["decision making", "decision-making"])
    ]

  /**
    `\b` at offset `k` of `t`: the characters on either side differ in being
    word characters, a position outside the text counting as a non-word one.
   */
  predicate IsBoundary(t: string, k: int)
    requires 0 <= k <= |t|
  {
    (0 < k && IsWordChar(t[k - 1])) != (k < |t| && IsWordChar(t[k]))
  }

  /** `\b<p>\b` matches `t` at offset `i`. */
  predicate WordAt(t: string, p: string, i: int)
  {
    OccursAt(t, p, i) && IsBoundary(t, i) && IsBoundary(t, i + |p|)
  }

  /** `re.search(r'\b' + re.escape(p) + r'\b', t)` finds a match. */
  predicate ContainsWord(t: string, p: string)
  {
    exists i :: 0 <= i <= |t| - |p| && WordAt(t, p, i)
  }

  /** Some surface form of `sk` occurs as a whole word in the lower-cased text. */
  predicate SkillFound(lower: string, sk: Skill)
  {
    exists f :: f in sk.forms && ContainsWord(lower, f)
  }

  /** The display names of the entries of `table` found in `lower`. */
  function FoundNames(table: seq<Skill>, lower: string): set<string>
  {
    if table == [] then {}
    else
      var last := table[|table| - 1];
      FoundNames(table[..|table| - 1], lower) + (if SkillFound(lower, last) then {last.name} else {})
  }

  /** A name is found exactly when some entry carrying it has a surface form in the text. */
  lemma {:induction false} FoundNamesMembers(table: seq<Skill>, lower: string, x: string)
    ensures x in FoundNames(table, lower)
        <==> exists i :: 0 <= i < |table| && table[i].name == x && SkillFound(lower, table[i])
  {
    if table != [] {
      var init := table[..|table| - 1];
      FoundNamesMembers(init, lower, x);
      if x in FoundNames(table, lower) && x !in FoundNames(init, lower) {
        assert table[|table| - 1].name == x && SkillFound(lower, table[|table| - 1]);
      }
      if exists i :: 0 <= i < |table| && table[i].name == x && SkillFound(lower, table[i]) {
        var i :| 0 <= i < |table| && table[i].name == x && SkillFound(lower, table[i]);
        if i < |table| - 1 {
          assert init[i] == table[i];
        }
      }
    }
  }

  /**
    One taxonomy loop of `extract_skills`: for every entry, try its forms in
    order and add the display name on the first form that matches.
   */
  method FindInTable(table: seq<Skill>, lower: string) returns (found: set<string>)
    ensures found == FoundNames(table, lower)
  {
    found := {};
    for k := 0 to |table|
      invariant found == FoundNames(table[..k], lower)
    {
      var sk := table[k];
      assert table[..k + 1][..k] == table[..k];
      for j := 0 to |sk.forms|
        invariant found == FoundNames(table[..k], lower)
        invariant forall j' :: 0 <= j' < j ==> !ContainsWord(lower, sk.forms[j'])
      {
        if ContainsWord(lower, sk.forms[j]) {
          found := found + {sk.name};
          break;
        }
      }
    }
    assert table[..|table|] == table;
  }

  /**
    What `extract_skills` returns for `text`: both lists sorted and free of
    duplicates, a name listed exactly when one of its entries has a surface
    form occurring as a whole word in the lower-cased text, and `total_count`
    the sum of the list sizes.
   */
  ghost predicate SkillReport(text: string, r: SkillSet)
  {
    && StrictlySorted(r.technical) && StrictlySorted(r.soft)
    && r.totalCount == |r.technical| + |r.soft|
    && (forall x :: x in r.technical <==>
         exists i :: 0 <= i < |TechnicalSkills| && TechnicalSkills[i].name == x
           && SkillFound(LowerStr(text), TechnicalSkills[i]))
    && (forall x :: x in r.soft <==>
         exists i :: 0 <= i < |SoftSkills| && SoftSkills[i].name == x
           && SkillFound(LowerStr(text), SoftSkills[i]))
  }

  /** `extract_skills`: collects the names found in each table as a set, then sorts each set. */
  method ExtractSkills(text: string) returns (r: SkillSet)
    ensures SkillReport(text, r)
  {
    var lower := LowerStr(text);
    var foundTechnical := FindInTable(TechnicalSkills, lower);
    var foundSoft := FindInTable(SoftSkills, lower);
    var technical := SortedList(foundTechnical);
    var soft := SortedList(foundSoft);
    forall x
      ensures x in technical <==>
        (exists i :: 0 <= i < |TechnicalSkills| && TechnicalSkills[i].name == x && SkillFound(lower, TechnicalSkills[i]))
    {
      FoundNamesMembers(TechnicalSkills, lower, x);
    }
    forall x
      ensures x in soft <==>
        (exists i :: 0 <= i < |SoftSkills| && SoftSkills[i].name == x && SkillFound(lower, SoftSkills[i]))
    {
      FoundNamesMembers(SoftSkills, lower, x);
    }
    r := SkillSet(technical, soft, |foundTechnical| + |foundSoft|);
  }

  /** The skills report leaves no choice: two results that both meet it are the same. */
  lemma SkillReportUnique(text: string, r1: SkillSet, r2: SkillSet)
    requires SkillReport(text, r1) && SkillReport(text, r2)
    ensures r1 == r2
  {
    StrictlySortedUnique(r1.technical, r2.technical);
    StrictlySortedUnique(r1.soft, r2.soft);
  }

  /**
    A surface form ending in a non-word character (`c++`, `c#`) only matches
    when a word character follows it: `\b` after `+` or `#` needs one.
   */
  lemma TrailingSymbolNeedsWordAfter(t: string, p: string, i: int)
    requires p != [] && !IsWordChar(p[|p| - 1])
    requires WordAt(t, p, i)
    ensures i + |p| < |t| && IsWordChar(t[i + |p|])
  {
    assert t[i + |p| - 1] == t[i..i + |p|][|p| - 1];
  }

  /** The table's entry for Git has the one surface form "git". */
  lemma GitEntry()
    ensures TechnicalSkills[61] == Skill("Git", ["git"])
  {
  }

  /** `Git` is matched in "i use git daily", where "git" is a word of its own. */
  lemma GitIsMatchedAsAWord()
    ensures SkillFound("i use git daily", Skill("Git", ["git"]))
  {
    var yes := "i use git daily";
    assert yes[6..9] == "git";
    assert WordAt(yes, "git", 6);
    assert ContainsWord(yes, "git");
  }

  /** `Git` is not matched inside "digit": the boundary before the "g" is missing. */
  lemma GitIsNotMatchedInsideAWord()
    ensures !SkillFound("10 digit number", Skill("Git", ["git"]))
  {
    var no := "10 digit number";
    // the only 'g' is the one inside "digit", which has a letter before it
    assert forall k :: 0 <= k < |no| && k != 5 ==> no[k] != 'g';
    forall i | 0 <= i <= |no| - 3 ensures !WordAt(no, "git", i) {
      if i == 5 {
        assert !IsBoundary(no, 5);
      } else {
        assert no[i..i + 3][0] == no[i];
      }
    }
  }
}
