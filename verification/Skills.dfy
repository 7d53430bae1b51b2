/** How an agent's skills are stored in one Redis field, searched by the routing script and read
    back by the dashboard query. */
module Skills {
  predicate CommaFree(s: string) { ',' !in s }

  predicate AllCommaFree(list: seq<string>) { forall i | 0 <= i < |list| :: CommaFree(list[i]) }

  /** ",".join(list) */
  function Join(list: seq<string>): string {
    if |list| == 0 then ""
    else if |list| == 1 then list[0]
    else list[0] + "," + Join(list[1..])
  }

  /** The pieces of a text that has one more character in front. */
  function Prepend(c: char, pieces: seq<string>): seq<string>
    requires pieces != []
  {
    if c == ',' then [""] + pieces else [[c] + pieces[0]] + pieces[1..]
  }

  /** text.split(",") */
  function Split(text: string): (r: seq<string>)
    ensures r != [] && AllCommaFree(r)
  {
    if text == "" then [""]
    else
      Prepend(text[0], Split(text[1..]))
  }

  /** Does part occur in all as a stretch?  On strings this is what Lua's `string.find` does with a
      pattern that has none of the characters ^ $ * + ? . ( [ % - in it. */
  predicate Contains<T(==)>(all: seq<T>, part: seq<T>) {
    part <= all || (all != [] && Contains(all[1..], part))
  }

  /** The script's test: ",skill," in "," .. skills .. ",". */
  predicate HasSkill(skills: string, skill: string) {
    skill == "" || Contains("," + skills + ",", "," + skill + ",")
  }

  // ----- splitting undoes joining

  lemma {:induction false} SplitWord(word: string)
    requires CommaFree(word)
    ensures Split(word) == [word]
    decreases |word|
  {
    if word != "" {
      assert CommaFree(word[1..]);
      SplitWord(word[1..]);
      assert [word[0]] + word[1..] == word;
    }
  }

  /** The comma-separated pieces of all the skills of a list. */
  function Pieces(list: seq<string>): (r: seq<string>)
    ensures AllCommaFree(r)
  {
    if list == [] then [] else Split(list[0]) + Pieces(list[1..])
  }

  lemma PrependConcat(c: char, x: seq<string>, y: seq<string>)
    requires x != []
    ensures Prepend(c, x + y) == Prepend(c, x) + y
  {
    assert (x + y)[1..] == x[1..] + y;
  }

  lemma {:induction false} SplitConcat(a: string, b: string)
    ensures Split(a + "," + b) == Split(a) + Split(b)
    decreases |a|
  {
    var all := a + "," + b;
    if a == "" {
      assert all[1..] == b;
    } else {
      SplitConcat(a[1..], b);
      assert all[1..] == a[1..] + "," + b;
      PrependConcat(a[0], Split(a[1..]), Split(b));
    }
  }

  lemma {:induction false} SplitOfJoin(list: seq<string>)
    requires list != []
    ensures Split(Join(list)) == Pieces(list)
    decreases |list|
  {
    if |list| == 1 {
      assert Pieces(list[1..]) == [];
    } else {
      SplitConcat(list[0], Join(list[1..]));
      SplitOfJoin(list[1..]);
    }
  }

  lemma {:induction false} PiecesOfCommaFree(list: seq<string>)
    requires AllCommaFree(list)
    ensures Pieces(list) == list
    decreases |list|
  {
    if list != [] {
      SplitWord(list[0]);
      PiecesOfCommaFree(list[1..]);
      assert list == [list[0]] + list[1..];
    }
  }

  lemma SplitJoin(list: seq<string>)
    requires list != [] && AllCommaFree(list)
    ensures Split(Join(list)) == list
  {
    SplitOfJoin(list);
    PiecesOfCommaFree(list);
  }

  /** The stored skills read back as the list given exactly when the list is non-empty and no
      skill contains a comma. */
  lemma RoundTrip(list: seq<string>)
    ensures Split(Join(list)) == list <==> list != [] && AllCommaFree(list)
  {
    if list != [] && AllCommaFree(list) {
      SplitJoin(list);
    }
  }

  /** Joining undoes splitting, whatever the text. */
  lemma {:induction false} JoinSplit(text: string)
    ensures Join(Split(text)) == text
    decreases |text|
  {
    if text != "" {
      JoinSplit(text[1..]);
      var rest := Split(text[1..]);
      assert text == [text[0]] + text[1..];
      if text[0] == ',' {
        assert ([""] + rest)[1..] == rest;
      } else {
        var r := [[text[0]] + rest[0]] + rest[1..];
        assert r[1..] == rest[1..];
      }
    }
  }

  // ----- the search of the text is a search of the list

  /** The comma-framed text of a list. */
  function Framed(list: seq<string>): string {
    if list == [] then "," else "," + list[0] + Framed(list[1..])
  }

  lemma {:induction false} FramedJoin(list: seq<string>)
    requires list != []
    ensures Framed(list) == "," + Join(list) + ","
    decreases |list|
  {
    if |list| > 1 {
      FramedJoin(list[1..]);
      Regroup(list[0], Join(list[1..]));
    } else {
      assert Framed(list[1..]) == ",";
    }
  }

  lemma Regroup(word: string, rest: string)
    ensures "," + word + ("," + rest + ",") == "," + (word + "," + rest) + ","
  {
  }

  /** Two comma-free words, each before a comma, start alike only if they are the same. */
  lemma {:induction false} SameWord(word: string, rest: string, word': string, rest': string)
    requires CommaFree(word) && CommaFree(word') && rest != [] && rest' != [] && rest[0] == ',' && rest'[0] == ','
    ensures word + rest <= word' + rest' <==> word == word' && rest <= rest'
    decreases |word|
  {
    var a, b := word + rest, word' + rest';
    if word == "" || word' == "" {
      assert a == (if word == "" then rest else a) && b == (if word' == "" then rest' else b);
    } else {
      assert CommaFree(word[1..]) && CommaFree(word'[1..]);
      SameWord(word[1..], rest, word'[1..], rest');
      assert a == [word[0]] + (word[1..] + rest) && b == [word'[0]] + (word'[1..] + rest');
      assert word == [word[0]] + word[1..] && word' == [word'[0]] + word'[1..];
      PrefixCons(word[0], word[1..] + rest, word'[0], word'[1..] + rest');
    }
  }

  lemma PrefixCons<T>(x: T, a: seq<T>, y: T, b: seq<T>)
    ensures [x] + a <= [y] + b <==> x == y && a <= b
  {
    var l, r := [x] + a, [y] + b;
    if l <= r {
      assert l[0] == r[0];
      forall i | 0 <= i < |a| ensures a[i] == b[i] {
        assert l[i + 1] == r[i + 1];
      }
    }
  }

  lemma {:induction false} FramedPrefix(part: seq<string>, list: seq<string>)
    requires AllCommaFree(part) && AllCommaFree(list)
    ensures Framed(part) <= Framed(list) <==> part <= list
    decreases |part|
  {
    if part != [] && list != [] {
      FramedPrefix(part[1..], list[1..]);
      SameWord(part[0], Framed(part[1..]), list[0], Framed(list[1..]));
      PrefixCons(',', part[0] + Framed(part[1..]), ',', list[0] + Framed(list[1..]));
      assert Framed(part) == [','] + (part[0] + Framed(part[1..]));
      assert Framed(list) == [','] + (list[0] + Framed(list[1..]));
      PrefixCons(part[0], part[1..], list[0], list[1..]);
      assert part == [part[0]] + part[1..] && list == [list[0]] + list[1..];
    }
  }

  /** What starts with a comma is not found inside a comma-free word. */
  lemma {:induction false} SkipWord(word: string, rest: string, part: string)
    requires CommaFree(word) && part != [] && part[0] == ','
    ensures Contains(word + rest, part) <==> Contains(rest, part)
    decreases |word|
  {
    if word == "" {
      assert word + rest == rest;
    } else {
      assert CommaFree(word[1..]);
      assert (word + rest)[1..] == word[1..] + rest;
      SkipWord(word[1..], rest, part);
    }
  }

  lemma {:induction false} FramedContains(list: seq<string>, part: seq<string>)
    requires AllCommaFree(list) && AllCommaFree(part) && part != []
    ensures Contains(Framed(list), Framed(part)) <==> Contains(list, part)
    decreases |list|
  {
    FramedPrefix(part, list);
    if list == [] {
      assert |Framed(part)| > 1 && !Contains("", Framed(part));
    } else {
      FramedContains(list[1..], part);
      SkipWord(list[0], Framed(list[1..]), Framed(part));
      assert Framed(list)[1..] == list[0] + Framed(list[1..]);
    }
  }

  /** The script's search, exactly, for every text and every required skill: it succeeds if and only
      if the pieces of the skill occur side by side among the pieces of the text. */
  lemma SearchIsListSearch(skills: string, skill: string)
    ensures HasSkill(skills, skill) <==> skill == "" || Contains(Split(skills), Split(skill))
  {
    JoinSplit(skills);
    JoinSplit(skill);
    FramedJoin(Split(skills));
    FramedJoin(Split(skill));
    FramedContains(Split(skills), Split(skill));
  }

  lemma {:induction false} ContainsOne<T>(all: seq<T>, x: T)
    ensures Contains(all, [x]) <==> x in all
    decreases |all|
  {
    if all != [] { ContainsOne(all[1..], x); assert all == [all[0]] + all[1..]; }
  }

  /** Whatever is stored, the search for a comma-free skill finds exactly what reading the field
      back lists. */
  lemma SearchMatchesReadBack(skills: string, skill: string)
    requires CommaFree(skill) && skill != ""
    ensures HasSkill(skills, skill) <==> skill in Split(skills)
  {
    SearchIsListSearch(skills, skill);
    SplitWord(skill);
    ContainsOne(Split(skills), skill);
  }

  // ----- against the list that was stored

  /** Against the list given: the search finds what has its pieces side by side among the list's. */
  lemma SearchFindsPieces(list: seq<string>, skill: string)
    ensures HasSkill(Join(list), skill) <==> skill == "" || Contains(Pieces(list), Split(skill))
  {
    SearchIsListSearch(Join(list), skill);
    JoinSplit(skill);
    if list == [] { assert Contains([""], Split(skill)) ==> Split(skill) == [""]; } else { SplitOfJoin(list); }
  }

  lemma {:induction false} PieceOf(list: seq<string>, x: string)
    ensures x in Pieces(list) <==> exists i :: 0 <= i < |list| && x in Split(list[i])
    decreases |list|
  {
    if list != [] {
      PieceOf(list[1..], x);
      if i :| 0 <= i < |list| && x in Split(list[i]) {
        assert i > 0 ==> list[1..][i - 1] == list[i];
      }
      if i :| 0 <= i < |list[1..]| && x in Split(list[1..][i]) {
        assert list[i + 1] == list[1..][i];
      }
    }
  }

  /** Every non-empty piece of a stored skill is itself stored. */
  predicate PiecesListed(list: seq<string>) {
    forall x | x in Pieces(list) :: x != "" ==> x in list
  }

  ghost predicate FindsMember(list: seq<string>, skill: string) { HasSkill(Join(list), skill) <==> skill in list }

  lemma FoundIfPiece(list: seq<string>, skill: string)
    requires CommaFree(skill) && skill != ""
    ensures HasSkill(Join(list), skill) <==> skill in Pieces(list)
    ensures skill in list ==> skill in Pieces(list)
  {
    SearchFindsPieces(list, skill);
    SplitWord(skill);
    ContainsOne(Pieces(list), skill);
    PieceOf(list, skill);
  }

  /** For comma-free required skills the search is membership exactly when every non-empty piece of a
      stored skill is itself in the list. */
  lemma SearchExact(list: seq<string>)
    ensures (forall skill | CommaFree(skill) && skill != "" :: FindsMember(list, skill)) <==> PiecesListed(list)
  {
    if PiecesListed(list) {
      forall skill | CommaFree(skill) && skill != "" ensures FindsMember(list, skill) {
        FoundIfPiece(list, skill);
      }
    }
    if forall skill | CommaFree(skill) && skill != "" :: FindsMember(list, skill) {
      forall x | x in Pieces(list) ensures x != "" ==> x in list {
        if x != "" {
          FoundIfPiece(list, x);
          assert FindsMember(list, x);
        }
      }
    }
  }

  /** So for comma-free skills it is membership. */
  lemma SearchIsMembership(list: seq<string>, skill: string)
    requires AllCommaFree(list) && CommaFree(skill) && skill != ""
    ensures HasSkill(Join(list), skill) <==> skill in list
  {
    PiecesOfCommaFree(list);
    FoundIfPiece(list, skill);
  }

  // ----- a required skill that holds a comma

  lemma {:induction false} ContainsAt<T>(all: seq<T>, part: seq<T>)
    ensures Contains(all, part) <==> exists i, j :: 0 <= i <= j <= |all| && all[i..j] == part
    decreases |all|
  {
    if part <= all {
      assert all[0..|part|] == part;
    } else if all != [] {
      ContainsAt(all[1..], part);
      if i, j :| 0 <= i <= j <= |all[1..]| && all[1..][i..j] == part {
        assert all[i + 1..j + 1] == part;
      }
      if i, j :| 0 <= i <= j <= |all| && all[i..j] == part {
        assert i > 0 ==> all[1..][i - 1..j - 1] == part;
      }
    }
  }

  /** What the search finds are the stretches of pieces, joined. */
  lemma SearchFindsStretches(list: seq<string>, skill: string)
    requires skill != ""
    ensures HasSkill(Join(list), skill) <==>
            exists i, j :: 0 <= i < j <= |Pieces(list)| && Join(Pieces(list)[i..j]) == skill
  {
    var p := Pieces(list);
    SearchFindsPieces(list, skill);
    ContainsAt(p, Split(skill));
    if i, j :| 0 <= i <= j <= |p| && p[i..j] == Split(skill) {
      JoinSplit(skill);
      assert 0 <= i < j <= |p| && Join(p[i..j]) == skill;
    }
    if i, j :| 0 <= i < j <= |p| && Join(p[i..j]) == skill {
      assert AllCommaFree(p[i..j]);
      SplitJoin(p[i..j]);
    }
  }

  /** Every stretch of pieces, joined, is itself stored. */
  predicate StretchesListed(list: seq<string>) {
    forall i, j | 0 <= i < j <= |Pieces(list)| ::
      Join(Pieces(list)[i..j]) != "" ==> Join(Pieces(list)[i..j]) in list
  }

  lemma {:induction false} MemberIsStretch(list: seq<string>, skill: string)
    requires skill in list
    ensures Contains(Pieces(list), Split(skill))
    decreases |list|
  {
    if skill == list[0] {
      assert Split(skill) <= Pieces(list);
    } else {
      MemberIsStretch(list[1..], skill);
      SkipFront(Split(list[0]), Pieces(list[1..]), Split(skill));
    }
  }

  lemma {:induction false} SkipFront<T>(front: seq<T>, all: seq<T>, part: seq<T>)
    requires Contains(all, part)
    ensures Contains(front + all, part)
    decreases |front|
  {
    if front == [] {
      assert front + all == all;
    } else {
      SkipFront(front[1..], all, part);
      assert (front + all)[1..] == front[1..] + all;
    }
  }

  /** For all required skills, commas or not, the search is membership exactly when every stretch of
      pieces is stored; a comma-free list of two or more skills never is such. */
  lemma SearchExactForAll(list: seq<string>)
    ensures (forall skill | skill != "" :: FindsMember(list, skill)) <==> StretchesListed(list)
    ensures AllCommaFree(list) ==> (StretchesListed(list) <==> |list| <= 1)
  {
    if StretchesListed(list) {
      forall skill | skill != "" ensures FindsMember(list, skill) {
        SearchFindsStretches(list, skill);
        SearchFindsPieces(list, skill);
        if skill in list { MemberIsStretch(list, skill); }
      }
    }
    if forall skill | skill != "" :: FindsMember(list, skill) {
      forall i, j | 0 <= i < j <= |Pieces(list)|
        ensures Join(Pieces(list)[i..j]) != "" ==> Join(Pieces(list)[i..j]) in list
      {
        var skill := Join(Pieces(list)[i..j]);
        if skill != "" {
          SearchFindsStretches(list, skill);
          assert FindsMember(list, skill);
        }
      }
    }
    if AllCommaFree(list) { CommaFreeStretches(list); }
  }

  lemma CommaFreeStretches(list: seq<string>)
    requires AllCommaFree(list)
    ensures StretchesListed(list) <==> |list| <= 1
  {
    PiecesOfCommaFree(list);
    if |list| >= 2 {
      var pair := Join(list[0..2]);
      assert list[0..2][1..] == [list[1]] && Join([list[1]]) == list[1];
      assert pair == list[0] + "," + Join(list[0..2][1..]);
      assert pair[|list[0]|] == ',';
      assert pair !in list;
    } else {
      forall i, j | 0 <= i < j <= |list| ensures Join(list[i..j]) in list {
        assert list[i..j] == list;
      }
    }
  }

  /** Two instances: a comma inside a stored skill, and one inside the required skill. */
  lemma CommaBreaksSearch(a: string, b: string)
    requires CommaFree(a) && CommaFree(b) && a != ""
    ensures a !in [a + "," + b] && HasSkill(Join([a + "," + b]), a)
    ensures a + "," + b !in [a, b] && HasSkill(Join([a, b]), a + "," + b)
  {
    var both := a + "," + b;
    assert both[|a|] == ',';
    SplitConcat(a, b);
    SplitWord(a);
    SplitWord(b);
    assert Pieces([both]) == Split(both) + Pieces([]);
    assert Pieces([both]) == [a] + [b];
    FoundIfPiece([both], a);
    PiecesOfCommaFree([a, b]);
    SearchFindsPieces([a, b], both);
    assert Split(both) <= [a, b];
  }

  // ----- a skill nobody has

  lemma {:induction false} ContainsIsNoLonger<T>(all: seq<T>, part: seq<T>)
    requires Contains(all, part)
    ensures |part| <= |all|
    decreases |all|
  {
    if !(part <= all) { ContainsIsNoLonger(all[1..], part); }
  }

  /** No text is found to have a longer skill. */
  lemma LongerIsNotFound(skills: string, skill: string)
    requires |skill| > |skills|
    ensures !HasSkill(skills, skill)
  {
    if Contains("," + skills + ",", "," + skill + ",") {
      ContainsIsNoLonger("," + skills + ",", "," + skill + ",");
    }
  }
}
