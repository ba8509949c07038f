/** The animal-name scan of `processImage` (js/vision.js:45-56): each name of
    the ordered animal list is tried, in list order, as the case-insensitive
    regular expression `\b<name>(s)?\b` against the caption, and the first
    name that matches becomes the label. Names are taken as plain literal
    words; word characters and case folding are those of ASCII. */
module AnimalScan {

  /** The label shown when no name matched (js/vision.js:56). */
  const NotRecognized: string := "Animal not recognized"

  /** A character of the regular-expression class `\w`: `[A-Za-z0-9_]`. */
  predicate IsWordChar(c: char) {
    'A' <= c <= 'Z' || 'a' <= c <= 'z' || '0' <= c <= '9' || c == '_'
  }

  /** ASCII lower-casing; every other character is left as it is. */
  function Lower(c: char): char {
    if 'A' <= c <= 'Z' then (c as int + 32) as char else c
  }

  /** The caption or name as the `i` flag sees it: same length, the same
      positions hold word characters, and every character compares equal to
      the original one under case folding. */
  function LowerString(s: string): (r: string)
    ensures |r| == |s|
    ensures forall k :: 0 <= k < |s| ==> (IsWordChar(r[k]) <==> IsWordChar(s[k]))
    ensures forall k :: 0 <= k < |s| ==> Lower(r[k]) == Lower(s[k])
  {
    seq(|s|, k requires 0 <= k < |s| => Lower(s[k]))
  }

  /** The assertion `\b` at position `i` of `t`: a word character on exactly
      one side, where the ends of the string count as non-word. */
  predicate IsBoundary(t: string, i: int)
    requires 0 <= i <= |t|
  {
    (0 < i && IsWordChar(t[i - 1])) != (i < |t| && IsWordChar(t[i]))
  }

  /** Equality under the `i` flag. */
  predicate SameIgnoringCase(a: string, b: string) {
    |a| == |b| && forall k :: 0 <= k < |a| ==> Lower(a[k]) == Lower(b[k])
  }

  /** `\b<name>(s)?\b` matches `t` starting at position `p`: either the
      optional `s` is taken and the closing `\b` follows it, or it is skipped
      and the closing `\b` follows the name. */
  predicate MatchesAt(t: string, name: string, p: int)
    requires 0 <= p && p + |name| <= |t|
  {
    var e := p + |name|;
    IsBoundary(t, p) && SameIgnoringCase(t[p..e], name) &&
    (IsBoundary(t, e) || (e < |t| && Lower(t[e]) == 's' && IsBoundary(t, e + 1)))
  }

  /** `new RegExp("\\b" + name + "(s)?\\b", "i").test(t)`. A match needs
      room for the name and at least one word boundary, so never happens in
      an empty string. */
  predicate WholeWordMatch(t: string, name: string)
    ensures WholeWordMatch(t, name) ==> |name| <= |t| && |t| > 0
  {
    exists p :: 0 <= p && p + |name| <= |t| && MatchesAt(t, name, p)
  }

  /** The scan as a value: the first name of the list whose pattern matches
      the caption, or "" when none does. */
  function FirstMatch(caption: string, animals: seq<string>): string {
    if animals == [] then ""
    else if WholeWordMatch(caption, animals[0]) then animals[0]
    else FirstMatch(caption, animals[1..])
  }

  /** The `for…of` loop with `break`: `animalName` starts empty and takes the
      first matching name. */
  method ScanAnimals(caption: string, animals: seq<string>) returns (animalName: string)
    ensures animalName == FirstMatch(caption, animals)
  {
    animalName := "";
    for i := 0 to |animals|
      invariant animalName == ""
      invariant FirstMatch(caption, animals) == FirstMatch(caption, animals[i..])
    {
      if WholeWordMatch(caption, animals[i]) {
        animalName := animals[i];
        break;
      }
      assert animals[i..][1..] == animals[i + 1..];
    }
  }

  /** The text written to the label element: the scan's result, or the
      fallback when that result is empty (JavaScript's `||` on strings). */
  function Label(animalName: string): (r: string)
    ensures r != ""
    ensures animalName != "" ==> r == animalName
    ensures r == animalName || r == NotRecognized
  {
    if animalName != "" then animalName else NotRecognized
  }

  /** The name at `i` is the result when it matches and no earlier name does. */
  lemma {:induction false} FirstMatchIsFirst(caption: string, animals: seq<string>, i: int)
    requires 0 <= i < |animals| && WholeWordMatch(caption, animals[i])
    requires forall j :: 0 <= j < i ==> !WholeWordMatch(caption, animals[j])
    ensures FirstMatch(caption, animals) == animals[i]
  {
    if i > 0 {
      assert !WholeWordMatch(caption, animals[0]);
      FirstMatchIsFirst(caption, animals[1..], i - 1);
    }
  }

  /** When no name matches, the result is empty. */
  lemma {:induction false} FirstMatchNone(caption: string, animals: seq<string>)
    requires forall j :: 0 <= j < |animals| ==> !WholeWordMatch(caption, animals[j])
    ensures FirstMatch(caption, animals) == ""
  {
    if animals != [] {
      assert !WholeWordMatch(caption, animals[0]);
      FirstMatchNone(caption, animals[1..]);
    }
  }

  /** The result is "" or a name of the list; a non-empty result is a name
      whose pattern matches, and no name before it in the list matches. */
  lemma {:induction false} FirstMatchSpec(caption: string, animals: seq<string>)
    ensures var r := FirstMatch(caption, animals);
      (r == "" || r in animals) &&
      (r != "" ==> exists i :: 0 <= i < |animals| && animals[i] == r &&
                     WholeWordMatch(caption, r) &&
                     forall j :: 0 <= j < i ==> !WholeWordMatch(caption, animals[j]))
  {
    if animals != [] && !WholeWordMatch(caption, animals[0]) {
      FirstMatchSpec(caption, animals[1..]);
      var r := FirstMatch(caption, animals);
      if r != "" {
        var i :| 0 <= i < |animals[1..]| && animals[1..][i] == r &&
                 WholeWordMatch(caption, r) &&
                 forall j :: 0 <= j < i ==> !WholeWordMatch(caption, animals[1..][j]);
        assert animals[i + 1] == r;
        assert forall j :: 0 <= j < i + 1 ==> !WholeWordMatch(caption, animals[j]) by {
          forall j | 0 <= j < i + 1 ensures !WholeWordMatch(caption, animals[j]) {
            if j > 0 { assert animals[j] == animals[1..][j - 1]; }
          }
        }
      }
    }
  }

  /** What the label element shows after a successful call: the fallback when
      no name matches; otherwise the first matching name unless that name is
      itself empty; and when the list holds neither "" nor the fallback text,
      the fallback appears exactly when no name matches. */
  lemma LabelOfScan(caption: string, animals: seq<string>)
    ensures var shown := Label(FirstMatch(caption, animals));
      ((forall j :: 0 <= j < |animals| ==> !WholeWordMatch(caption, animals[j])) ==> shown == NotRecognized) &&
      (shown != NotRecognized ==> exists i :: 0 <= i < |animals| && animals[i] == shown &&
                                    WholeWordMatch(caption, shown) &&
                                    forall j :: 0 <= j < i ==> !WholeWordMatch(caption, animals[j])) &&
      ("" !in animals && NotRecognized !in animals ==>
        (shown == NotRecognized <==> forall j :: 0 <= j < |animals| ==> !WholeWordMatch(caption, animals[j])))
  {
    FirstMatchSpec(caption, animals);
    if forall j :: 0 <= j < |animals| ==> !WholeWordMatch(caption, animals[j]) {
      FirstMatchNone(caption, animals);
    } else {
      var i :| 0 <= i < |animals| && WholeWordMatch(caption, animals[i]);
      FirstOf(caption, animals, i);
    }
  }

  /** Some name matches, so some earliest one does, and it is the result. */
  lemma {:induction false} FirstOf(caption: string, animals: seq<string>, i: int)
    requires 0 <= i < |animals| && WholeWordMatch(caption, animals[i])
    ensures FirstMatch(caption, animals) in animals
    ensures WholeWordMatch(caption, FirstMatch(caption, animals))
  {
    if !WholeWordMatch(caption, animals[0]) {
      assert i > 0;
      FirstOf(caption, animals[1..], i - 1);
    }
  }

  /** Nothing matches an empty caption: it has no word boundary at all, so
      an empty caption always gets the fallback label. */
  lemma EmptyCaptionNotRecognized(animals: seq<string>)
    ensures Label(FirstMatch("", animals)) == NotRecognized
  {
    forall j | 0 <= j < |animals| ensures !WholeWordMatch("", animals[j]) {
      assert !IsBoundary("", 0);
    }
    FirstMatchNone("", animals);
  }

  /** A plain word occurring on its own, or followed by a single `s`, with a
      non-word character or the end of the string on each side, matches. */
  lemma WordOccurrenceMatches(before: string, name: string, plural: bool, after: string)
    requires |name| > 0 && forall k :: 0 <= k < |name| ==> IsWordChar(name[k])
    requires before == [] || !IsWordChar(before[|before| - 1])
    requires after == [] || !IsWordChar(after[0])
    ensures WholeWordMatch(before + name + (if plural then "s" else "") + after, name)
  {
    var suffix := if plural then "s" else "";
    var t := before + name + suffix + after;
    var p, e := |before|, |before| + |name|;
    assert t[p..e] == name;
    assert IsWordChar(t[p]) && (p == 0 || t[p - 1] == before[|before| - 1]);
    assert IsBoundary(t, p);
    if plural {
      assert t[e] == 's' && IsWordChar(t[e]);
      assert e + 1 == |t| || t[e + 1] == after[0];
      assert IsBoundary(t, e + 1);
    } else {
      assert t[e - 1] == name[|name| - 1];
      assert e == |t| || t[e] == after[0];
      assert IsBoundary(t, e);
    }
    assert MatchesAt(t, name, p);
  }

  /** Lower-casing the caption or the name changes no match: the test is
      case-insensitive on both sides. */
  lemma MatchIgnoresCase(t: string, name: string)
    ensures WholeWordMatch(LowerString(t), name) == WholeWordMatch(t, name)
    ensures WholeWordMatch(t, LowerString(name)) == WholeWordMatch(t, name)
  {
    forall p | 0 <= p && p + |name| <= |t|
      ensures MatchesAt(LowerString(t), name, p) == MatchesAt(t, name, p)
      ensures MatchesAt(t, LowerString(name), p) == MatchesAt(t, name, p)
    {
      LowerCaptionMatchesAt(t, name, p);
      LowerNameMatchesAt(t, name, p);
    }
  }

  lemma LowerCaptionMatchesAt(t: string, name: string, p: int)
    requires 0 <= p && p + |name| <= |t|
    ensures MatchesAt(LowerString(t), name, p) == MatchesAt(t, name, p)
  {
    var lt, e := LowerString(t), p + |name|;
    forall i | 0 <= i <= |t| ensures IsBoundary(lt, i) == IsBoundary(t, i) {
    }
    assert SameIgnoringCase(lt[p..e], name) == SameIgnoringCase(t[p..e], name) by {
      forall k | 0 <= k < |name| ensures Lower(lt[p..e][k]) == Lower(t[p..e][k]) {
        assert lt[p..e][k] == lt[p + k] && t[p..e][k] == t[p + k];
      }
    }
  }

  lemma LowerNameMatchesAt(t: string, name: string, p: int)
    requires 0 <= p && p + |name| <= |t|
    ensures MatchesAt(t, LowerString(name), p) == MatchesAt(t, name, p)
  {
    var ln, e := LowerString(name), p + |name|;
    assert SameIgnoringCase(t[p..e], ln) == SameIgnoringCase(t[p..e], name);
  }

  /** "Cats" matches `cat` through the optional plural `s` and the `i` flag. */
  lemma CatsMatchesCat()
    ensures WholeWordMatch("Cats", "cat")
  {
    assert MatchesAt("Cats", "cat", 0);
  }

  /** "bobcat" does not match `cat`: no word boundary before the `c`. */
  lemma BobcatDoesNotMatchCat()
    ensures !WholeWordMatch("bobcat", "cat")
  {
    var t := "bobcat";
    forall p | 0 <= p && p + 3 <= |t| ensures !MatchesAt(t, "cat", p) {
      assert 0 <= p <= 3;
      if p == 0 || p == 1 || p == 2 {
        assert Lower(t[p]) != 'c';
      } else {
        assert IsWordChar(t[2]) && IsWordChar(t[3]);
      }
    }
  }

  /** "catsup" does not match `cat`: the word goes on past the `s`. */
  lemma CatsupDoesNotMatchCat()
    ensures !WholeWordMatch("catsup", "cat")
  {
    var t := "catsup";
    forall p | 0 <= p && p + 3 <= |t| ensures !MatchesAt(t, "cat", p) {
      if p == 0 {
        assert IsWordChar(t[2]) && IsWordChar(t[3]) && IsWordChar(t[4]);
        assert !IsBoundary(t, 3) && !IsBoundary(t, 4);
      } else {
        assert IsWordChar(t[p - 1]) && IsWordChar(t[p]);
      }
    }
  }

  /** A caption naming a cat in the singular gets the label `cat`. */
  lemma SingularCaptionLabel()
    ensures Label(FirstMatch("A cat sitting on a table", ["cat"])) == "cat"
  {
    assert MatchesAt("A cat sitting on a table", "cat", 2);
    FirstMatchIsFirst("A cat sitting on a table", ["cat"], 0);
  }

  /** A caption naming cats in the plural also gets the label `cat`. */
  lemma PluralCaptionLabel()
    ensures Label(FirstMatch("A group of cats", ["cat"])) == "cat"
  {
    assert MatchesAt("A group of cats", "cat", 11);
    FirstMatchIsFirst("A group of cats", ["cat"], 0);
  }

  /** The list order decides, not the order in the caption: `dog` comes first
      in the list, so it wins although "cat" comes first in the text. */
  lemma ListOrderDecides()
    ensures FirstMatch("A cat chasing a dog", ["dog", "cat"]) == "dog"
  {
    assert MatchesAt("A cat chasing a dog", "dog", 16);
    FirstMatchIsFirst("A cat chasing a dog", ["dog", "cat"], 0);
  }
}
