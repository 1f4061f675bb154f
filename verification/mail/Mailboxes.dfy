/** Inbound mailbox addresses: slugs, validation, and the allocator that keeps every address
    unique across policies and workflows, ignoring case. */
module Mailboxes {
  import opened Options
  import opened Text

  // ── local parts ──────────────────────────────────────────────────────────

  const MAX_LENGTH := 64

  predicate Alnum(c: char) {
    ('a' <= c <= 'z') || ('0' <= c <= '9')
  }

  predicate Inner(c: char) {
    Alnum(c) || c == '.' || c == '_' || c == '-'
  }

  /** A letter of either case, or a digit. */
  predicate LetterOrDigit(c: char) {
    'A' <= c <= 'Z' || 'a' <= c <= 'z' || '0' <= c <= '9'
  }

  lemma LoweredCharacter(c: char)
    ensures Alnum(LowerChar(c)) <==> LetterOrDigit(c)
    ensures Inner(LowerChar(c)) <==> LetterOrDigit(c) || c == '.' || c == '_' || c == '-'
  {
  }

  /** `^[a-z0-9](?:[a-z0-9._-]{0,62}[a-z0-9])?` up to the end of the text. */
  predicate Matches(s: string) {
    && 1 <= |s| <= MAX_LENGTH
    && Alnum(s[0]) && Alnum(s[|s| - 1])
    && forall i :: 0 <= i < |s| ==> Inner(s[i])
  }

  datatype AddressError = Empty | TooLong | BadCharacters

  /** The pattern's final `$` also matches just before one trailing newline. */
  function ValidateLocalPart(s: string): Option<AddressError> {
    if s == "" then Some(Empty)
    else if |s| > MAX_LENGTH then Some(TooLong)
    else if Matches(s) || (s[|s| - 1] == '\n' && Matches(s[..|s| - 1])) then None
    else Some(BadCharacters)
  }

  function NormalizeLocalPart(s: string): string {
    Lower(Strip(s))
  }

  /** On normalized text validation accepts exactly the clean local parts. */
  lemma NormalizedIsClean(s: string)
    ensures ValidateLocalPart(NormalizeLocalPart(s)).None? <==> Matches(NormalizeLocalPart(s))
  {
  }

  // ── slugs ────────────────────────────────────────────────────────────────

  /** `re.sub(r"[^a-z0-9]+", "-", s)`; `inRun` says that a hyphen already stands for the run. */
  function Hyphenate(s: string, inRun: bool): string {
    if s == "" then ""
    else if Alnum(s[0]) then [s[0]] + Hyphenate(s[1..], false)
    else if inRun then Hyphenate(s[1..], true)
    else "-" + Hyphenate(s[1..], true)
  }

  /** Letters, digits and hyphens, and no hyphen after another. */
  predicate Single(s: string) {
    && (forall i :: 0 <= i < |s| ==> Alnum(s[i]) || s[i] == '-')
    && (forall i :: 0 <= i < |s| - 1 && s[i] == '-' ==> s[i + 1] != '-')
  }

  lemma {:induction false} HyphenateIsSingle(s: string, inRun: bool)
    ensures Single(Hyphenate(s, inRun))
    ensures inRun && Hyphenate(s, inRun) != "" ==> Hyphenate(s, inRun)[0] != '-'
    decreases |s|
  {
    if s != "" {
      HyphenateIsSingle(s[1..], !Alnum(s[0]));
    }
  }

  /** `re.sub(r"-{2,}", "-", s)` */
  function Squeeze(s: string): (r: string)
    ensures forall i :: 0 <= i < |r| ==> r[i] in s
    ensures (forall i :: 0 <= i < |s| - 1 && s[i] == '-' ==> s[i + 1] != '-') ==> r == s
  {
    if |s| <= 1 then s
    else if s[0] == '-' && s[1] == '-' then Squeeze(s[1..])
    else
      assert forall i :: 1 <= i < |s| - 1 ==> s[i] == s[1..][i - 1] && s[i + 1] == s[1..][i];
      [s[0]] + Squeeze(s[1..])
  }

  function TrimLeft(s: string): (r: string)
    ensures |r| <= |s| && (r != "" ==> r[0] != '-') && (forall c :: c in r ==> c in s)
  {
    if s != "" && s[0] == '-' then TrimLeft(s[1..]) else s
  }

  function TrimRight(s: string): (r: string)
    ensures r <= s && (r != "" ==> r[|r| - 1] != '-')
  {
    if s != "" && s[|s| - 1] == '-' then TrimRight(s[..|s| - 1]) else s
  }

  /** `s.strip("-")` */
  function TrimHyphens(s: string): (r: string)
    ensures |r| <= |s| && (r != "" ==> r[0] != '-' && r[|r| - 1] != '-') && (forall c :: c in r ==> c in s)
  {
    TrimRight(TrimLeft(s))
  }

  function Cut(s: string): (r: string)
    ensures r <= s && |r| <= MAX_LENGTH
  {
    if |s| <= MAX_LENGTH then s else s[..MAX_LENGTH]
  }

  function Slug(name: string): string {
    TrimHyphens(Cut(TrimHyphens(Squeeze(Hyphenate(Lower(Strip(name)), false)))))
  }

  function Slugify(name: Option<string>, fallback: string): string {
    var s := Slug(match name case None => "" case Some(n) => n);
    if s == "" then fallback else s
  }

  lemma SlugCharacters(name: string, c: char)
    requires c in Slug(name)
    ensures Alnum(c) || c == '-'
  {
    var hyphenated := Hyphenate(Lower(Strip(name)), false);
    HyphenateIsSingle(Lower(Strip(name)), false);
    assert c in Squeeze(hyphenated);
    assert c in hyphenated;
  }

  /** The last trimming leaves no hyphen at either end, and the cut keeps the length in bounds. */
  lemma SlugEnds(name: string)
    requires Slug(name) != ""
    ensures var slug := Slug(name); |slug| <= MAX_LENGTH && slug[0] != '-' && slug[|slug| - 1] != '-'
  {
    var squeezed := TrimHyphens(Squeeze(Hyphenate(Lower(Strip(name)), false)));
    assert Slug(name) == TrimHyphens(Cut(squeezed));
  }

  /** A slug that is not empty always passes validation. */
  lemma SlugIsValid(name: string)
    requires Slug(name) != ""
    ensures Matches(Slug(name)) && ValidateLocalPart(Slug(name)).None?
  {
    SlugEnds(name);
    forall c | c in Slug(name) ensures Alnum(c) || c == '-' {
      SlugCharacters(name, c);
    }
    LettersMatch(Slug(name));
  }

  lemma LettersMatch(s: string)
    requires s != "" && |s| <= MAX_LENGTH && s[0] != '-' && s[|s| - 1] != '-'
    requires forall c :: c in s ==> Alnum(c) || c == '-'
    ensures Matches(s)
  {
    assert s[0] in s && s[|s| - 1] in s;
    forall i | 0 <= i < |s| ensures Inner(s[i]) {
      assert s[i] in s;
    }
  }

  /** The second substitution never finds anything to squeeze. */
  lemma SqueezeIsIdle(s: string)
    ensures Squeeze(Hyphenate(s, false)) == Hyphenate(s, false)
  {
    HyphenateIsSingle(s, false);
  }

  // ── a slug is its words joined by hyphens ────────────────────────────────

  /** The maximal runs of small letters and digits. */
  function Words(s: string): (words: seq<string>)
    ensures s != "" && Alnum(s[0]) ==> words != []
  {
    if s == "" then []
    else
      var rest := Words(s[1..]);
      if !Alnum(s[0]) then rest
      else if |s| == 1 || !Alnum(s[1]) then [[s[0]]] + rest
      else [[s[0]] + rest[0]] + rest[1..]
  }

  /** A non-empty run of small letters and digits. */
  ghost predicate Run(s: string) {
    s != "" && forall i :: 0 <= i < |s| ==> 'a' <= s[i] <= 'z' || '0' <= s[i] <= '9'
  }

  lemma {:induction false} WordsAreRuns(s: string)
    ensures forall w :: w in Words(s) ==> Run(w)
  {
    if s != "" {
      WordsAreRuns(s[1..]);
      if Alnum(s[0]) && |s| > 1 && Alnum(s[1]) {
        assert Run(Words(s[1..])[0]);
      }
    }
  }

  function Join(words: seq<string>): string {
    if words == [] then ""
    else if |words| == 1 then words[0]
    else words[0] + "-" + Join(words[1..])
  }

  /** A run of letters and digits that other characters, or the end, follow is the first word. */
  lemma {:induction false} WordsOfRun(run: string, rest: string)
    requires Run(run)
    requires rest != "" ==> !Alnum(rest[0])
    ensures Words(run + rest) == [run] + Words(rest)
    decreases |run|
  {
    var s := run + rest;
    assert s[1..] == run[1..] + rest;
    if |run| > 1 {
      WordsOfRun(run[1..], rest);
      assert run == [run[0]] + run[1..];
    } else {
      assert s[1..] == rest && run == [s[0]];
    }
  }

  /** Other characters before a word do not show. */
  lemma {:induction false} WordsAfter(other: string, rest: string)
    requires forall i :: 0 <= i < |other| ==> !('a' <= other[i] <= 'z' || '0' <= other[i] <= '9')
    ensures Words(other + rest) == Words(rest)
    decreases |other|
  {
    if other == "" {
      assert other + rest == rest;
    } else {
      assert (other + rest)[1..] == other[1..] + rest;
      WordsAfter(other[1..], rest);
    }
  }

  lemma {:induction false} WordsBefore(s: string, other: string)
    requires forall i :: 0 <= i < |other| ==> !Alnum(other[i])
    ensures Words(s + other) == Words(s)
    decreases |s|
  {
    if s == "" {
      WordsAfter(other, "");
      assert s + other == other + "";
    } else {
      assert (s + other)[1..] == s[1..] + other;
      WordsBefore(s[1..], other);
    }
  }

  lemma WordsOfStripped(s: string)
    ensures Words(Strip(s)) == Words(s)
  {
    var left, right := StripCuts(s);
    assert s == left + (Strip(s) + right);
    WordsAfter(left, Strip(s) + right);
    WordsBefore(Strip(s), right);
  }

  function LastHyphen(s: string): string {
    if Words(s) != [] && !Alnum(s[|s| - 1]) then "-" else ""
  }

  lemma {:induction false} LetterLastMeansWord(s: string)
    requires s != "" && Alnum(s[|s| - 1])
    ensures Words(s) != []
  {
    if |s| > 1 {
      LetterLastMeansWord(s[1..]);
    }
  }

  /** A one-letter word before anything but a letter. */
  lemma BreakUnfolds(c: char, rest: string)
    requires Alnum(c) && (rest != "" ==> !Alnum(rest[0]))
    ensures Words([c] + rest) == [[c]] + Words(rest)
    ensures Hyphenate([c] + rest, true) == [c] + if rest == "" then "" else "-" + Hyphenate(rest, true)
  {
    assert ([c] + rest)[1..] == rest;
  }

  /** A letter before a letter. */
  lemma RunUnfolds(c: char, rest: string)
    requires Alnum(c) && rest != "" && Alnum(rest[0])
    ensures Words([c] + rest) == [[c] + Words(rest)[0]] + Words(rest)[1..]
    ensures Hyphenate([c] + rest, true) == [c] + Hyphenate(rest, true)
  {
    assert ([c] + rest)[1..] == rest;
  }

  lemma OtherUnfolds(c: char, rest: string)
    requires !Alnum(c)
    ensures Words([c] + rest) == Words(rest) && Hyphenate([c] + rest, true) == Hyphenate(rest, true)
  {
    assert ([c] + rest)[1..] == rest;
  }

  lemma JoinFirst(word: string, words: seq<string>)
    ensures Join([word] + words) == word + if words == [] then "" else "-" + Join(words)
  {
    assert ([word] + words)[1..] == words;
  }

  lemma LastHyphenUnfolds(c: char, rest: string)
    requires rest != ""
    ensures Alnum(c) ==> LastHyphen([c] + rest) == if Alnum(rest[|rest| - 1]) then "" else "-"
    ensures !Alnum(c) ==> LastHyphen([c] + rest) == LastHyphen(rest)
  {
    var s := [c] + rest;
    assert s[|s| - 1] == rest[|rest| - 1];
    if !Alnum(c) {
      OtherUnfolds(c, rest);
    }
  }

  lemma {:induction false} HyphenatesWords(s: string)
    ensures Hyphenate(s, true) == Join(Words(s)) + LastHyphen(s)
  {
    if s != "" {
      var c, rest := s[0], s[1..];
      assert s == [c] + rest;
      HyphenatesWords(rest);
      if rest == "" {
      } else if !Alnum(c) {
        OtherUnfolds(c, rest);
        LastHyphenUnfolds(c, rest);
      } else if Alnum(rest[0]) {
        RunHyphenates(c, rest);
      } else {
        BreakHyphenates(c, rest);
      }
    }
  }

  lemma RunHyphenates(c: char, rest: string)
    requires Alnum(c) && rest != "" && Alnum(rest[0])
    requires Hyphenate(rest, true) == Join(Words(rest)) + LastHyphen(rest)
    ensures Hyphenate([c] + rest, true) == Join(Words([c] + rest)) + LastHyphen([c] + rest)
  {
    RunUnfolds(c, rest);
    JoinLonger(c, Words(rest));
    LastHyphenUnfolds(c, rest);
    Regroup([c], Join(Words(rest)), LastHyphen(rest));
  }

  lemma BreakHyphenates(c: char, rest: string)
    requires Alnum(c) && rest != "" && !Alnum(rest[0])
    requires Hyphenate(rest, true) == Join(Words(rest)) + LastHyphen(rest)
    ensures Hyphenate([c] + rest, true) == Join(Words([c] + rest)) + LastHyphen([c] + rest)
  {
    BreakUnfolds(c, rest);
    JoinFirst([c], Words(rest));
    LastHyphenUnfolds(c, rest);
    if Words(rest) != [] {
      Regroup([c] + "-", Join(Words(rest)), LastHyphen(rest));
      Regroup([c], "-", Join(Words(rest)));
      Regroup([c], "-", Hyphenate(rest, true));
    } else if Alnum(rest[|rest| - 1]) {
      LetterLastMeansWord(rest);
    }
  }

  lemma Regroup(a: string, b: string, c: string)
    ensures a + (b + c) == a + b + c
  {
  }

  lemma JoinLonger(c: char, words: seq<string>)
    requires words != []
    ensures Join([[c] + words[0]] + words[1..]) == [c] + Join(words)
  {
    var longer := [[c] + words[0]] + words[1..];
    assert longer[1..] == words[1..];
  }

  lemma {:induction false} JoinEnds(words: seq<string>)
    requires words != [] && forall w :: w in words ==> Run(w)
    ensures Join(words) != "" && Join(words)[0] != '-' && Join(words)[|Join(words)| - 1] != '-'
    decreases |words|
  {
    assert Run(words[0]);
    if |words| > 1 {
      assert forall w :: w in words[1..] ==> w in words;
      JoinEnds(words[1..]);
    }
  }

  lemma TrimEnds(clean: string, left: string, right: string)
    requires clean != "" && clean[0] != '-' && clean[|clean| - 1] != '-'
    requires (left == "" || left == "-") && (right == "" || right == "-")
    ensures TrimHyphens(left + clean + right) == clean
  {
    var s := left + clean + right;
    if left == "-" {
      assert s[1..] == clean + right;
    } else {
      assert s == clean + right;
    }
    assert TrimLeft(clean + right) == clean + right;
    if right == "-" {
      assert (clean + right)[..|clean|] == clean;
      assert TrimRight(clean) == clean;
    } else {
      assert clean + right == clean;
    }
  }

  lemma TrimmedAreWords(s: string)
    ensures TrimHyphens(Hyphenate(s, false)) == Join(Words(s))
  {
    HyphenatesWords(s);
    var left := if s == "" || Alnum(s[0]) then "" else "-";
    assert Hyphenate(s, false) == left + Join(Words(s)) + LastHyphen(s) by {
      if s != "" && Alnum(s[0]) {
        assert Hyphenate(s, false) == Hyphenate(s, true);
      }
    }
    if Words(s) == [] {
      assert Hyphenate(s, false) == left;
      assert "-"[1..] == "";
    } else {
      WordsAreRuns(s);
      JoinEnds(Words(s));
      TrimEnds(Join(Words(s)), left, LastHyphen(s));
    }
  }

  /** `s` cut to 64 characters, less a hyphen at the end of the cut. */
  function Shortened(s: string): string {
    if |s| <= 64 then s else if s[63] == '-' then s[..63] else s[..64]
  }

  lemma JoinIsSingle(s: string)
    ensures var joined := Join(Words(s));
            Single(joined) && (joined != "" ==> joined[0] != '-' && joined[|joined| - 1] != '-')
  {
    TrimmedAreWords(s);
    HyphenateIsSingle(s, false);
    TrimIsSingle(Hyphenate(s, false));
  }

  lemma SlugOfClean(s: string)
    ensures TrimHyphens(Cut(TrimHyphens(Squeeze(Hyphenate(s, false))))) == Shortened(Join(Words(s)))
  {
    SqueezeIsIdle(s);
    TrimmedAreWords(s);
    JoinIsSingle(s);
    TrimAfterCut(Join(Words(s)));
  }

  /** The slug of a name is its words, the maximal runs of letters and digits in lower case, joined
      by one hyphen each; past 64 characters it is cut, and loses a hyphen that the cut leaves at
      its end. */
  lemma SlugJoinsWords(name: string)
    ensures Slug(name) == Shortened(Join(Words(Lower(name))))
  {
    StripLowers(name);
    WordsOfStripped(Lower(name));
    SlugOfClean(Lower(Strip(name)));
  }

  lemma TrimAfterCut(s: string)
    requires Single(s) && (s != "" ==> s[0] != '-' && s[|s| - 1] != '-')
    ensures TrimHyphens(Cut(s)) == Shortened(s)
  {
    var cut := Cut(s);
    if |s| > 64 && s[63] == '-' {
      assert s[62] != '-';
      TrimEnds(s[..63], "", "-");
      assert "" + s[..63] + "-" == cut;
    } else if s != "" {
      TrimEnds(cut, "", "");
      assert "" + cut + "" == cut;
    }
  }

  /** Names that differ only in case have the same slug. */
  lemma SlugIgnoresCase(a: string, b: string)
    requires SameIgnoringCase(a, b)
    ensures Slug(a) == Slug(b)
  {
    LowerDecides(a, b);
    StripLowers(a);
    StripLowers(b);
  }

  /** Two runs of letters and digits with other characters between them: one hyphen joins them. */
  lemma TwoWords(first: string, other: string, second: string)
    requires first != "" && forall i :: 0 <= i < |first| ==> LetterOrDigit(first[i])
    requires second != "" && forall i :: 0 <= i < |second| ==> LetterOrDigit(second[i])
    requires other != "" && forall i :: 0 <= i < |other| ==> !LetterOrDigit(other[i])
    requires |first| + 1 + |second| <= 64
    ensures Slug(first + other + second) == Lower(first) + "-" + Lower(second)
  {
    var name := first + other + second;
    assert Lower(name) == Lower(first) + (Lower(other) + Lower(second));
    LoweredRun(first);
    LoweredRun(second);
    forall i | 0 <= i < |other| ensures !Alnum(Lower(other)[i]) {
      LoweredCharacter(other[i]);
    }
    WordsOfRun(Lower(first), Lower(other) + Lower(second));
    WordsAfter(Lower(other), Lower(second));
    WordsOfRun(Lower(second), "");
    assert Lower(second) + "" == Lower(second);
    assert ([Lower(first)] + [Lower(second)])[1..] == [Lower(second)];
    SlugJoinsWords(name);
  }

  lemma LoweredRun(s: string)
    requires s != "" && forall i :: 0 <= i < |s| ==> LetterOrDigit(s[i])
    ensures Run(Lower(s))
  {
    forall i | 0 <= i < |s| ensures Alnum(Lower(s)[i]) {
      LoweredCharacter(s[i]);
    }
  }

  // ── slugs are their own slugs ────────────────────────────────────────────

  predicate Sluglike(s: string) {
    s != "" && |s| <= MAX_LENGTH && Single(s) && s[0] != '-' && s[|s| - 1] != '-'
  }

  lemma {:induction false} SingleHyphenates(s: string, inRun: bool)
    requires Single(s) && (inRun && s != "" ==> s[0] != '-')
    ensures Hyphenate(s, inRun) == s
  {
    if s != "" {
      assert Single(s[1..]) by {
        assert forall i :: 0 <= i < |s| - 1 ==> s[1..][i] == s[i + 1];
      }
      SingleHyphenates(s[1..], !Alnum(s[0]));
    }
  }

  lemma SluglikeStrips(s: string)
    requires Sluglike(s)
    ensures Lower(Strip(s)) == s
  {
    assert !IsSpace(s[0]) && !IsSpace(s[|s| - 1]);
    assert Strip(s) == s;
  }

  lemma SluglikeTrims(s: string)
    requires Sluglike(s)
    ensures TrimHyphens(s) == s && Cut(s) == s
  {
  }

  lemma SluglikeIsItsSlug(s: string)
    requires Sluglike(s)
    ensures Slug(s) == s
  {
    SluglikeStrips(s);
    SingleHyphenates(s, false);
    SqueezeIsIdle(s);
    SluglikeTrims(s);
  }

  lemma SliceIsSingle(s: string, lo: nat, hi: nat)
    requires Single(s) && lo <= hi <= |s|
    ensures Single(s[lo..hi])
  {
    assert forall i :: 0 <= i < hi - lo ==> s[lo..hi][i] == s[lo + i];
  }

  lemma {:induction false} TrimLeftIsSuffix(s: string)
    ensures TrimLeft(s) == s[|s| - |TrimLeft(s)|..]
  {
    if s != "" && s[0] == '-' { TrimLeftIsSuffix(s[1..]); }
  }

  lemma TrimIsSingle(s: string)
    requires Single(s)
    ensures Single(TrimHyphens(s))
  {
    var left, r := TrimLeft(s), TrimHyphens(s);
    TrimLeftIsSuffix(s);
    SliceIsSingle(s, |s| - |left|, |s|);
    assert s[|s| - |left|..|s|] == left;
    SliceIsSingle(left, 0, |r|);
    assert left[0..|r|] == r;
  }

  lemma CutIsSingle(s: string)
    requires Single(s)
    ensures Single(TrimHyphens(Cut(s)))
  {
    SliceIsSingle(s, 0, |Cut(s)|);
    assert s[0..|Cut(s)|] == Cut(s);
    TrimIsSingle(Cut(s));
  }

  lemma SlugIsSluglike(name: string)
    requires Slug(name) != ""
    ensures Sluglike(Slug(name))
  {
    var s := Lower(Strip(name));
    SqueezeIsIdle(s);
    HyphenateIsSingle(s, false);
    TrimIsSingle(Hyphenate(s, false));
    CutIsSingle(TrimHyphens(Hyphenate(s, false)));
    SlugEnds(name);
  }

  /** Slugging twice is slugging once. */
  lemma SlugIsIdempotent(name: string)
    ensures Slug(Slug(name)) == Slug(name)
  {
    if Slug(name) == "" {
      assert Strip("") == "" && Hyphenate(Lower(""), false) == "";
    } else {
      SlugIsSluglike(name);
      SluglikeIsItsSlug(Slug(name));
    }
  }

  // ── addresses in use ─────────────────────────────────────────────────────

  datatype Owner = Policy(id: nat) | Workflow(id: nat)

  datatype Box = Box(name: Option<string>, enabled: bool, address: Option<string>)

  function Address(local: string, domain: string): string {
    local + "@" + domain
  }

  /** The lower-cased addresses of every policy and workflow but the excluded one. */
  function Used(boxes: map<Owner, Box>, exclude: Owner): set<string> {
    set o | o in boxes && o != exclude && boxes[o].address.Some? :: Lower(boxes[o].address.value)
  }

  predicate AddressInUse(boxes: map<Owner, Box>, address: string, exclude: Owner) {
    exists o | o in boxes :: o != exclude && boxes[o].address.Some? && Lower(boxes[o].address.value) == Lower(address)
  }

  /** Another mailbox has the address, ignoring case. */
  ghost predicate Elsewhere(boxes: map<Owner, Box>, owner: Owner, address: string) {
    exists o :: o in boxes && o != owner && boxes[o].address.Some? && SameIgnoringCase(boxes[o].address.value, address)
  }

  lemma InUseIgnoresCase(boxes: map<Owner, Box>, address: string, exclude: Owner)
    ensures AddressInUse(boxes, address, exclude) <==> Elsewhere(boxes, exclude, address)
  {
    forall o | o in boxes && boxes[o].address.Some?
      ensures Lower(boxes[o].address.value) == Lower(address) <==> SameIgnoringCase(boxes[o].address.value, address)
    {
      LowerDecides(boxes[o].address.value, address);
    }
  }

  lemma InUseMeansUsed(boxes: map<Owner, Box>, address: string, exclude: Owner)
    ensures AddressInUse(boxes, address, exclude) <==> Lower(address) in Used(boxes, exclude)
  {
  }

  function Candidate(base: string, n: nat): string {
    if n <= 1 then base else base + ("-" + Decimal(n))
  }

  predicate Taken(boxes: map<Owner, Box>, base: string, domain: string, exclude: Owner, n: nat) {
    AddressInUse(boxes, Address(Candidate(base, n), domain), exclude)
  }

  /** The candidate's address, lower-cased piece by piece. */
  lemma LowerCandidate(base: string, domain: string, n: nat)
    requires n >= 2
    ensures Lower(Address(Candidate(base, n), domain)) == Lower(base) + ("-" + Decimal(n)) + Lower("@" + domain)
  {
  }

  lemma LowerBase(base: string, domain: string)
    ensures Lower(Address(Candidate(base, 1), domain)) == Lower(base) + Lower("@" + domain)
  {
  }

  lemma CancelAffixes(a: string, x: string, y: string, b: string)
    requires a + x + b == a + y + b
    ensures x == y
  {
    assert |x| == |y|;
    assert x == (a + x + b)[|a|..|a| + |x|];
    assert y == (a + y + b)[|a|..|a| + |y|];
  }

  /** Different candidates have different addresses, even ignoring case. */
  lemma CandidatesDiffer(base: string, domain: string, m: nat, n: nat)
    requires 1 <= m < n
    ensures Lower(Address(Candidate(base, m), domain)) != Lower(Address(Candidate(base, n), domain))
  {
    LowerCandidate(base, domain, n);
    if m == 1 {
      LowerBase(base, domain);
    } else {
      LowerCandidate(base, domain, m);
      if Lower(Address(Candidate(base, m), domain)) == Lower(Address(Candidate(base, n), domain)) {
        CancelAffixes(Lower(base), "-" + Decimal(m), "-" + Decimal(n), Lower("@" + domain));
        assert Decimal(m) == ("-" + Decimal(m))[1..] && Decimal(n) == ("-" + Decimal(n))[1..];
        DecimalIsInjective(m, n);
      }
    }
  }

  ghost function Tried(base: string, domain: string, n: nat): set<string> {
    if n == 0 then {} else Tried(base, domain, n - 1) + {Lower(Address(Candidate(base, n), domain))}
  }

  lemma {:induction false} TriedAreDistinct(base: string, domain: string, n: nat, x: nat)
    requires x > n
    ensures |Tried(base, domain, n)| == n
    ensures Lower(Address(Candidate(base, x), domain)) !in Tried(base, domain, n)
  {
    if n > 0 {
      TriedAreDistinct(base, domain, n - 1, x);
      TriedAreDistinct(base, domain, n - 1, n);
      CandidatesDiffer(base, domain, n, x);
    }
  }

  /** n candidates in use means at least n addresses in use. */
  lemma {:induction false} ProbesAreBounded(boxes: map<Owner, Box>, base: string, domain: string, exclude: Owner,
                                            n: nat)
    requires forall m :: 1 <= m <= n ==> Taken(boxes, base, domain, exclude, m)
    ensures n <= |Used(boxes, exclude)|
  {
    TriedAreDistinct(base, domain, n, n + 1);
    TriedAreUsed(boxes, base, domain, exclude, n);
    var tried, used := Tried(base, domain, n), Used(boxes, exclude);
    assert used == tried + (used - tried);
  }

  lemma {:induction false} TriedAreUsed(boxes: map<Owner, Box>, base: string, domain: string, exclude: Owner, n: nat)
    requires forall m :: 1 <= m <= n ==> Taken(boxes, base, domain, exclude, m)
    ensures Tried(base, domain, n) <= Used(boxes, exclude)
  {
    if n > 0 {
      TriedAreUsed(boxes, base, domain, exclude, n - 1);
      assert Taken(boxes, base, domain, exclude, n);
      InUseMeansUsed(boxes, Address(Candidate(base, n), domain), exclude);
    }
  }

  /** The number of the first free candidate, from n on. */
  function FirstFree(boxes: map<Owner, Box>, base: string, domain: string, exclude: Owner, n: nat): (k: nat)
    requires n >= 1 && forall m :: 1 <= m < n ==> Taken(boxes, base, domain, exclude, m)
    ensures k >= n && k <= |Used(boxes, exclude)| + 1
    ensures !Taken(boxes, base, domain, exclude, k)
    ensures forall m :: 1 <= m < k ==> Taken(boxes, base, domain, exclude, m)
    decreases |Used(boxes, exclude)| + 1 - n
  {
    ProbesAreBounded(boxes, base, domain, exclude, n - 1);
    if Taken(boxes, base, domain, exclude, n) then
      ProbesAreBounded(boxes, base, domain, exclude, n);
      FirstFree(boxes, base, domain, exclude, n + 1)
    else n
  }

  /** Probing stops within |addresses in use| + 1 probes at the first free candidate. */
  method UniqueLocalPart(boxes: map<Owner, Box>, base: string, domain: string, exclude: Owner)
    returns (candidate: string, probes: nat)
    ensures candidate == Candidate(base, probes)
    ensures 1 <= probes <= |Used(boxes, exclude)| + 1
    ensures !AddressInUse(boxes, Address(candidate, domain), exclude)
    ensures forall m :: 1 <= m < probes ==> Taken(boxes, base, domain, exclude, m)
    ensures probes == FirstFree(boxes, base, domain, exclude, 1)
    ensures candidate == if probes == 1 then base else base + ("-" + Decimal(probes))
    ensures !Elsewhere(boxes, exclude, candidate + "@" + domain)
    ensures forall m :: 1 <= m < probes ==>
              Elsewhere(boxes, exclude, (if m == 1 then base else base + ("-" + Decimal(m))) + "@" + domain)
  {
    candidate := base;
    var n := 1;
    while AddressInUse(boxes, Address(candidate, domain), exclude)
      invariant n >= 1 && candidate == Candidate(base, n)
      invariant forall m :: 1 <= m < n ==> Taken(boxes, base, domain, exclude, m)
      invariant FirstFree(boxes, base, domain, exclude, 1) == FirstFree(boxes, base, domain, exclude, n)
      invariant n <= |Used(boxes, exclude)| + 1
      decreases |Used(boxes, exclude)| + 1 - n
    {
      ProbesAreBounded(boxes, base, domain, exclude, n);
      n := n + 1;
      candidate := base + ("-" + Decimal(n));
    }
    probes := n;
    InUseIgnoresCase(boxes, candidate + "@" + domain, exclude);
    forall m | 1 <= m < probes
      ensures Elsewhere(boxes, exclude, (if m == 1 then base else base + ("-" + Decimal(m))) + "@" + domain)
    {
      assert Taken(boxes, base, domain, exclude, m);
      InUseIgnoresCase(boxes, (if m == 1 then base else base + ("-" + Decimal(m))) + "@" + domain, exclude);
    }
  }

  // ── the mailbox endpoints ────────────────────────────────────────────────

  datatype Request =
    | Enable(owner: Owner, domain: string)
    | SetAddress(owner: Owner, localPart: string, domain: string)
    | Disable(owner: Owner)

  datatype Reply = Saved | NotFound | NotEnabled | Invalid(error: AddressError) | Conflict

  function Fallback(owner: Owner): string {
    match owner
    case Policy(id) => "policy-" + Decimal(id)
    case Workflow(id) => "workflow-" + Decimal(id)
  }

  function Refusal(boxes: map<Owner, Box>, r: Request): Reply {
    if r.owner !in boxes then NotFound
    else if !r.SetAddress? then Saved
    else if !boxes[r.owner].enabled then NotEnabled
    else
      var local := NormalizeLocalPart(r.localPart);
      match ValidateLocalPart(local)
      case Some(error) => Invalid(error)
      case None => if AddressInUse(boxes, Address(local, r.domain), r.owner) then Conflict else Saved
  }

  function Allocated(boxes: map<Owner, Box>, owner: Owner, domain: string): string
    requires owner in boxes
  {
    var base := Slugify(boxes[owner].name, Fallback(owner));
    Address(Candidate(base, FirstFree(boxes, base, domain, owner, 1)), domain)
  }

  /** A typed address is stored only with a clean local part: the pattern alone would also admit
      one with a trailing newline, but the text was stripped before. */
  lemma TypedAddressIsClean(boxes: map<Owner, Box>, owner: Owner, localPart: string, domain: string)
    requires Refusal(boxes, SetAddress(owner, localPart, domain)).Saved?
    ensures Matches(NormalizeLocalPart(localPart))
    ensures Handle(boxes, SetAddress(owner, localPart, domain))[owner].address
            == Some(Address(NormalizeLocalPart(localPart), domain))
    ensures var local := NormalizeLocalPart(localPart);
            ValidateLocalPart(local + "\n").None? <==> |local| < 64
  {
    NormalizedIsClean(localPart);
    var local := NormalizeLocalPart(localPart);
    assert (local + "\n")[..|local|] == local;
  }

  /** The texts that are clean once lowered. */
  ghost predicate Typable(t: string) {
    && 1 <= |t| <= 64
    && LetterOrDigit(t[0]) && LetterOrDigit(t[|t| - 1])
    && forall i :: 0 <= i < |t| ==> LetterOrDigit(t[i]) || t[i] == '.' || t[i] == '_' || t[i] == '-'
  }

  lemma LoweredIsTypable(t: string)
    ensures Matches(Lower(t)) <==> Typable(t)
  {
    forall i | 0 <= i < |t| ensures Lower(t)[i] == LowerChar(t[i]) {
      LoweredCharacter(t[i]);
    }
    if Matches(Lower(t)) {
      LoweredCharacter(t[0]);
      LoweredCharacter(t[|t| - 1]);
      forall i | 0 <= i < |t| ensures LetterOrDigit(t[i]) || t[i] == '.' || t[i] == '_' || t[i] == '-' {
        LoweredCharacter(t[i]);
        assert Inner(Lower(t)[i]);
      }
    } else if Typable(t) {
      LoweredCharacter(t[0]);
      LoweredCharacter(t[|t| - 1]);
      forall i | 0 <= i < |t| ensures Inner(Lower(t)[i]) {
        LoweredCharacter(t[i]);
      }
    }
  }

  lemma SameIfLowered(a: string, t: string, domain: string)
    ensures SameIgnoringCase(a, Lower(t) + "@" + domain) <==> SameIgnoringCase(a, t + "@" + domain)
  {
    assert Lower(Lower(t) + "@" + domain) == Lower(t + "@" + domain);
    LowerDecides(a, Lower(t) + "@" + domain);
    LowerDecides(a, t + "@" + domain);
  }

  lemma ElsewhereIfLowered(boxes: map<Owner, Box>, owner: Owner, t: string, domain: string)
    ensures Elsewhere(boxes, owner, Lower(t) + "@" + domain) <==> Elsewhere(boxes, owner, t + "@" + domain)
  {
    forall o | o in boxes && boxes[o].address.Some?
      ensures SameIgnoringCase(boxes[o].address.value, Lower(t) + "@" + domain) <==>
              SameIgnoringCase(boxes[o].address.value, t + "@" + domain)
    {
      SameIfLowered(boxes[o].address.value, t, domain);
    }
  }

  /** What becomes of a typed local part t, white space at its ends aside: it is refused unless it is
      1 to 64 letters, digits, dots, underscores and hyphens with a letter or digit at either end and no other
      mailbox has it, ignoring case; else it is stored with each capital replaced by its small letter. */
  lemma TypedAddressIsStoredWhen(boxes: map<Owner, Box>, owner: Owner, localPart: string, domain: string)
    requires owner in boxes && boxes[owner].enabled
    ensures var t, reply := Strip(localPart), Refusal(boxes, SetAddress(owner, localPart, domain));
            && (reply == Invalid(Empty) <==> t == "")
            && (reply == Invalid(TooLong) <==> |t| > 64)
            && (reply == Invalid(BadCharacters) <==> 1 <= |t| <= 64 && !Typable(t))
            && (reply == Conflict <==> Typable(t) && Elsewhere(boxes, owner, t + "@" + domain))
            && (reply == Saved <==> Typable(t) && !Elsewhere(boxes, owner, t + "@" + domain))
    ensures var t, boxes' := Strip(localPart), Handle(boxes, SetAddress(owner, localPart, domain));
            Refusal(boxes, SetAddress(owner, localPart, domain)).Saved? ==>
              && boxes' == boxes[owner := Box(boxes[owner].name, true, Some(Lower(t) + "@" + domain))]
              && forall i :: 0 <= i < |t| ==>
                   Lower(t)[i] as int == t[i] as int + if 'A' <= t[i] <= 'Z' then 32 else 0
  {
    var t := Strip(localPart);
    NormalizedIsClean(localPart);
    LoweredIsTypable(t);
    InUseIgnoresCase(boxes, Lower(t) + "@" + domain, owner);
    ElsewhereIfLowered(boxes, owner, t, domain);
  }

  // ── when the allocated name is one that validation accepts ───────────────

  /** A base that the allocator is handed: a valid local part, or a fallback too long to be one. */
  predicate Allocatable(base: string) {
    Matches(base) || |base| > MAX_LENGTH
  }

  lemma FallbackIsAllocatable(owner: Owner)
    ensures Fallback(owner) != "" && Allocatable(Fallback(owner))
  {
    var digits := Decimal(owner.id);
    var f := Fallback(owner);
    assert f[|f| - 1] == digits[|digits| - 1];
  }

  lemma BaseIsAllocatable(name: Option<string>, owner: Owner)
    ensures Allocatable(Slugify(name, Fallback(owner)))
  {
    FallbackIsAllocatable(owner);
    var text := match name case None => "" case Some(n) => n;
    if Slug(text) != "" {
      SlugIsValid(text);
    }
  }

  lemma CandidateIsValidWhenShort(base: string, n: nat)
    requires Allocatable(base)
    ensures ValidateLocalPart(Candidate(base, n)).None? <==> |Candidate(base, n)| <= MAX_LENGTH
  {
  }

  lemma CandidatesGrow(base: string, m: nat, n: nat)
    requires m <= n
    ensures |Candidate(base, m)| <= |Candidate(base, n)|
  {
    DecimalGrows(m, n);
  }

  /** Enabling a mailbox stores a local part that `validate_local_part` would accept exactly when
      some candidate within the length limit is still free. */
  lemma AllocationIsValidWhen(boxes: map<Owner, Box>, owner: Owner, domain: string)
    requires owner in boxes
    ensures var base := Slugify(boxes[owner].name, Fallback(owner));
            var local := Candidate(base, FirstFree(boxes, base, domain, owner, 1));
            && Handle(boxes, Enable(owner, domain))[owner].address == Some(Address(local, domain))
            && (ValidateLocalPart(local).None? <==>
                  exists m: nat ::
                    m >= 1 && |Candidate(base, m)| <= MAX_LENGTH && !Taken(boxes, base, domain, owner, m))
  {
    var base := Slugify(boxes[owner].name, Fallback(owner));
    var k := FirstFree(boxes, base, domain, owner, 1);
    BaseIsAllocatable(boxes[owner].name, owner);
    CandidateIsValidWhenShort(base, k);
    if m: nat :| m >= 1 && |Candidate(base, m)| <= MAX_LENGTH && !Taken(boxes, base, domain, owner, m) {
      CandidatesGrow(base, k, m);
    }
  }

  /** A name of letters and digits within the limit is its own slug. */
  lemma CleanIsItsSlug(s: string)
    requires s != "" && |s| <= MAX_LENGTH && forall i :: 0 <= i < |s| ==> Alnum(s[i])
    ensures Slug(s) == s
  {
    assert Sluglike(s);
    SluglikeIsItsSlug(s);
  }

  function LongName(): (s: string)
    ensures |s| == MAX_LENGTH && forall i :: 0 <= i < |s| ==> s[i] == 'a'
  {
    seq(MAX_LENGTH, i => 'a')
  }

  /** Two policies of the same name; the first has its mailbox. */
  function Namesakes(name: string, domain: string): map<Owner, Box> {
    map[Policy(1) := Box(Some(name), true, Some(Address(name, domain))),
        Policy(2) := Box(Some(name), false, None)]
  }

  /** The namesake of a longest clean name is given a local part that is too long. */
  lemma LongNamesakeOverflows(name: string, domain: string) returns (local: string)
    requires |name| == MAX_LENGTH && forall i :: 0 <= i < |name| ==> Alnum(name[i])
    ensures var boxes := Handle(Namesakes(name, domain), Enable(Policy(2), domain));
            boxes[Policy(2)].address == Some(Address(local, domain))
    ensures ValidateLocalPart(local) == Some(TooLong)
  {
    var boxes := Namesakes(name, domain);
    CleanIsItsSlug(name);
    assert AddressInUse(boxes, Address(name, domain), Policy(2)) by {
      assert Policy(1) in boxes;
    }
    assert Taken(boxes, name, domain, Policy(2), 1);
    var k := FirstFree(boxes, name, domain, Policy(2), 1);
    local := Candidate(name, k);
  }

  /** A numbered suffix can push an allocated local part past the limit: here enabling the second
      mailbox stores one that the validation of a typed address refuses. */
  lemma SuffixMayOverflow() returns (local: string)
    ensures var boxes := Handle(Namesakes(LongName(), "clerq.eu"), Enable(Policy(2), "clerq.eu"));
            boxes[Policy(2)].address == Some(Address(local, "clerq.eu"))
    ensures ValidateLocalPart(local) == Some(TooLong)
  {
    local := LongNamesakeOverflows(LongName(), "clerq.eu");
  }

  /** The mailboxes after a request. */
  function Handle(boxes: map<Owner, Box>, r: Request): map<Owner, Box> {
    if !Refusal(boxes, r).Saved? then boxes
    else
      var box := boxes[r.owner];
      match r
      case Enable(owner, domain) =>
        boxes[owner := box.(enabled := true, address := Some(Allocated(boxes, owner, domain)))]
      case SetAddress(owner, localPart, domain) =>
        boxes[owner := box.(address := Some(Address(NormalizeLocalPart(localPart), domain)))]
      case Disable(owner) =>
        boxes[owner := box.(enabled := false, address := None)]
  }

  /** No two mailboxes share an address, ignoring case. */
  ghost predicate AllDistinct(boxes: map<Owner, Box>) {
    forall o, p :: o in boxes && p in boxes && o != p && boxes[o].address.Some? && boxes[p].address.Some? ==>
      !SameIgnoringCase(boxes[o].address.value, boxes[p].address.value)
  }

  class Directory {
    var boxes: map<Owner, Box>

    constructor (boxes: map<Owner, Box>)
      ensures this.boxes == boxes
    {
      this.boxes := boxes;
    }

    method EnableInbox(owner: Owner, domain: string) returns (reply: Reply)
      modifies this
      ensures reply == Refusal(old(boxes), Enable(owner, domain))
      ensures boxes == Handle(old(boxes), Enable(owner, domain))
      ensures reply == if owner in old(boxes) then Saved else NotFound
      ensures owner in old(boxes) ==>
                var box := old(boxes)[owner];
                var slug := Slug(if box.name.Some? then box.name.value else "");
                var base := if slug != "" then slug
                            else (if owner.Policy? then "policy-" else "workflow-") + Decimal(owner.id);
                var k := FirstFree(old(boxes), base, domain, owner, 1);
                boxes == old(boxes)[owner := Box(box.name, true, Some(Candidate(base, k) + "@" + domain))]
    {
      if owner !in boxes {
        return NotFound;
      }
      var box := boxes[owner];
      var base := Slugify(box.name, Fallback(owner));
      var local, _ := UniqueLocalPart(boxes, base, domain, owner);
      boxes := boxes[owner := box.(enabled := true, address := Some(Address(local, domain)))];
      reply := Saved;
    }

    method SetInboxAddress(owner: Owner, localPart: string, domain: string) returns (reply: Reply)
      modifies this
      ensures reply == Refusal(old(boxes), SetAddress(owner, localPart, domain))
      ensures boxes == Handle(old(boxes), SetAddress(owner, localPart, domain))
      ensures reply == NotFound <==> owner !in old(boxes)
      ensures reply == NotEnabled <==> owner in old(boxes) && !old(boxes)[owner].enabled
      ensures reply != Saved ==> boxes == old(boxes)
    {
      if owner !in boxes {
        return NotFound;
      }
      if !boxes[owner].enabled {
        return NotEnabled;
      }
      var local := NormalizeLocalPart(localPart);
      var error := ValidateLocalPart(local);
      if error.Some? {
        return Invalid(error.value);
      }
      var address := Address(local, domain);
      if AddressInUse(boxes, address, owner) {
        return Conflict;
      }
      boxes := boxes[owner := boxes[owner].(address := Some(address))];
      reply := Saved;
    }

    method DisableInbox(owner: Owner) returns (reply: Reply)
      modifies this
      ensures reply == Refusal(old(boxes), Disable(owner))
      ensures boxes == Handle(old(boxes), Disable(owner))
      ensures reply == if owner in old(boxes) then Saved else NotFound
      ensures owner in old(boxes) ==> boxes == old(boxes)[owner := Box(old(boxes)[owner].name, false, None)]
    {
      if owner !in boxes {
        return NotFound;
      }
      boxes := boxes[owner := boxes[owner].(enabled := false, address := None)];
      reply := Saved;
    }
  }

  lemma HandleKeepsDistinct(boxes: map<Owner, Box>, r: Request)
    requires AllDistinct(boxes)
    ensures AllDistinct(Handle(boxes, r))
  {
    if Refusal(boxes, r).Saved? && !r.Disable? {
      var address := Handle(boxes, r)[r.owner].address.value;
      InUseIgnoresCase(boxes, address, r.owner);
      SymmetricElsewhere(boxes, r.owner, address);
    }
  }

  lemma SymmetricElsewhere(boxes: map<Owner, Box>, owner: Owner, address: string)
    requires !Elsewhere(boxes, owner, address)
    ensures forall o :: o in boxes && o != owner && boxes[o].address.Some? ==>
              && !SameIgnoringCase(boxes[o].address.value, address)
              && !SameIgnoringCase(address, boxes[o].address.value)
  {
    forall o | o in boxes && o != owner && boxes[o].address.Some?
      ensures !SameIgnoringCase(address, boxes[o].address.value)
    {
      LowerDecides(address, boxes[o].address.value);
      LowerDecides(boxes[o].address.value, address);
    }
  }

  function HandleAll(boxes: map<Owner, Box>, requests: seq<Request>): map<Owner, Box> {
    if requests == [] then boxes else HandleAll(Handle(boxes, requests[0]), requests[1..])
  }

  /** Any sequence of enable, set-address and disable requests keeps all addresses distinct,
      ignoring case, even while the inbound domain changes. */
  lemma {:induction false} AddressesStayDistinct(boxes: map<Owner, Box>, requests: seq<Request>)
    requires AllDistinct(boxes)
    ensures AllDistinct(HandleAll(boxes, requests))
    decreases |requests|
  {
    if requests != [] {
      HandleKeepsDistinct(boxes, requests[0]);
      AddressesStayDistinct(Handle(boxes, requests[0]), requests[1..]);
    }
  }
}
