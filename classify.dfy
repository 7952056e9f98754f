/** The three narration classifiers of app.py and the missing-value
    normalisation that precedes each of them. */
module Classify {
  import opened Wrappers
  import opened Chars

  /** `handle_nan`: a missing narration becomes the empty string; a present one is
      used as its string form (the caller renders non-string cells, see
      `Tables.CellString`). */
  function HandleNan(narration: Option<string>): string {
    match narration
    case Some(s) => s
    case None => ""
  }

  /** `\b` before index `i` when `s[i]` is a word character. */
  predicate LeftBoundary(s: string, i: int)
    requires 0 <= i <= |s|
  {
    i == 0 || !IsWordChar(s[i - 1])
  }

  /** `\b` after index `j - 1` when `s[j - 1]` is a word character. */
  predicate RightBoundary(s: string, j: int)
    requires 0 <= j <= |s|
  {
    j == |s| || !IsWordChar(s[j])
  }

  // ---------------------------------------------------------------------------
  // extract_payment_platform

  const PlatformNames: seq<string> := ["PhonePe", "Paytm", "Bharat Pay", "ATM", "Google Pay"]

  /** `extract_payment_platform`: the fixed chain of substring tests on the
      lower-cased narration; the first test that holds decides. */
  function PaymentPlatform(narration: Option<string>): (r: Option<string>)
    ensures r.Some? ==> r.value in PlatformNames
  {
    var t := Lower(HandleNan(narration));
    if Contains(t, "phone pe") || Contains(t, "@ybl") || Contains(t, "@axl") then Some("PhonePe")
    else if Contains(t, "paytm") then Some("Paytm")
    else if Contains(t, "bharatpe") then Some("Bharat Pay")
    else if Contains(t, "cash wdl") then Some("ATM")
    else if Contains(t, "@ok") then Some("Google Pay")
    else None
  }

  /** A narration naming a cash withdrawal, and none of the keywords tested
      before it, is classified as an ATM transaction. */
  lemma CashWithdrawalIsAtm(s: string)
    requires Contains(Lower(s), "cash wdl")
    requires !Contains(Lower(s), "phone pe") && !Contains(Lower(s), "@ybl") && !Contains(Lower(s), "@axl")
    requires !Contains(Lower(s), "paytm") && !Contains(Lower(s), "bharatpe")
    ensures PaymentPlatform(Some(s)) == Some("ATM")
  {
  }

  /** The narration `cash wdl` is an ATM transaction. */
  lemma CashWdlIsAtm(s: string)
    requires s == "cash wdl"
    ensures PaymentPlatform(Some(s)) == Some("ATM")
  {
    var t := Lower(s);
    assert t == s;
    MissingCharNotContained(t, "phone pe", 0);
    MissingCharNotContained(t, "@ybl", 0);
    MissingCharNotContained(t, "@axl", 0);
    MissingCharNotContained(t, "paytm", 0);
    MissingCharNotContained(t, "bharatpe", 7);
    assert OccursAt(t, "cash wdl", 0);
  }

  /** A narration whose lower-case form lacks `@`, `e`, `y` and `c` contains no
      keyword, so it has no platform. */
  lemma NoKeywordLettersNoPlatform(narration: string)
    requires var t := Lower(narration); '@' !in t && 'e' !in t && 'y' !in t && 'c' !in t
    ensures PaymentPlatform(Some(narration)) == None
  {
    var t := Lower(narration);
    MissingCharNotContained(t, "phone pe", 4);
    MissingCharNotContained(t, "@ybl", 0);
    MissingCharNotContained(t, "@axl", 0);
    MissingCharNotContained(t, "paytm", 2);
    MissingCharNotContained(t, "bharatpe", 7);
    MissingCharNotContained(t, "cash wdl", 0);
    MissingCharNotContained(t, "@ok", 0);
  }

  /** A transfer narration naming none of the keywords has no platform. */
  lemma TransferHasNoPlatform(s: string)
    requires s == "UPI to JOHN SMITH"
    ensures PaymentPlatform(Some(s)) == None
  {
    assert Lower(s) == "upi to john smith";
    NoKeywordLettersNoPlatform(s);
  }

  /** The same rules as a table: a rule fires when one of its keywords occurs. */
  datatype Rule = Rule(keywords: seq<string>, platform: string)

  const PlatformRules: seq<Rule> := [
    Rule(["phone pe", "@ybl", "@axl"], "PhonePe"),
    Rule(["paytm"], "Paytm"),
    Rule(["bharatpe"], "Bharat Pay"),
    Rule(["cash wdl"], "ATM"),
    Rule(["@ok"], "Google Pay")
  ]

  predicate Fires(rule: Rule, t: string) {
    exists k :: 0 <= k < |rule.keywords| && Contains(t, rule.keywords[k])
  }

  /** The label of the first rule of `rules` that fires on `t`. */
  function FirstFiring(rules: seq<Rule>, t: string): (r: Option<string>)
    ensures r.Some? ==> exists i :: 0 <= i < |rules| && rules[i].platform == r.value && Fires(rules[i], t)
    ensures r.None? ==> forall i :: 0 <= i < |rules| ==> !Fires(rules[i], t)
  {
    if rules == [] then None
    else if Fires(rules[0], t) then Some(rules[0].platform)
    else
      var rest := FirstFiring(rules[1..], t);
      assert forall i :: 1 <= i < |rules| ==> rules[i] == rules[1..][i - 1];
      rest
  }

  /** Precedence, not position: when rule `i` is the first rule that fires, its
      label is the answer, whatever later rules would also fire. */
  lemma {:induction false} FirstFiringIsFirst(rules: seq<Rule>, t: string, i: nat)
    requires i < |rules| && Fires(rules[i], t)
    requires forall j :: 0 <= j < i ==> !Fires(rules[j], t)
    ensures FirstFiring(rules, t) == Some(rules[i].platform)
  {
    if i > 0 {
      assert !Fires(rules[0], t);
      assert rules[1..][i - 1] == rules[i];
      FirstFiringIsFirst(rules[1..], t, i - 1);
    }
  }

  /** The if/elif chain is exactly the rule table read in order. */
  lemma PaymentPlatformFollowsRules(narration: Option<string>)
    ensures PaymentPlatform(narration) == FirstFiring(PlatformRules, Lower(HandleNan(narration)))
  {
    var t := Lower(HandleNan(narration));
    var r := PlatformRules;
    var phonePe := Contains(t, "phone pe") || Contains(t, "@ybl") || Contains(t, "@axl");
    assert Fires(r[0], t) <==> phonePe by {
      if Contains(t, "phone pe") { assert r[0].keywords[0] == "phone pe"; }
      if Contains(t, "@ybl") { assert r[0].keywords[1] == "@ybl"; }
      if Contains(t, "@axl") { assert r[0].keywords[2] == "@axl"; }
    }
    assert Fires(r[1], t) <==> Contains(t, "paytm") by { assert r[1].keywords[0] == "paytm"; }
    assert Fires(r[2], t) <==> Contains(t, "bharatpe") by { assert r[2].keywords[0] == "bharatpe"; }
    assert Fires(r[3], t) <==> Contains(t, "cash wdl") by { assert r[3].keywords[0] == "cash wdl"; }
    assert Fires(r[4], t) <==> Contains(t, "@ok") by { assert r[4].keywords[0] == "@ok"; }
    if phonePe {
      FirstFiringIsFirst(r, t, 0);
    } else if Contains(t, "paytm") {
      FirstFiringIsFirst(r, t, 1);
    } else if Contains(t, "bharatpe") {
      FirstFiringIsFirst(r, t, 2);
    } else if Contains(t, "cash wdl") {
      FirstFiringIsFirst(r, t, 3);
    } else if Contains(t, "@ok") {
      FirstFiringIsFirst(r, t, 4);
    } else {
      assert forall i :: 0 <= i < |r| ==> !Fires(r[i], t);
    }
  }

  /** Matching is case-insensitive: a narration and its lower-cased form get the
      same platform. */
  lemma PaymentPlatformIgnoresCase(s: string)
    ensures PaymentPlatform(Some(Lower(s))) == PaymentPlatform(Some(s))
  {
    LowerIdempotent(s);
  }

  /** A narration naming both Paytm and a Google Pay handle is Paytm. */
  lemma PaytmBeforeGooglePay(s: string)
    requires Contains(Lower(s), "paytm") && Contains(Lower(s), "@ok")
    requires !Contains(Lower(s), "phone pe") && !Contains(Lower(s), "@ybl") && !Contains(Lower(s), "@axl")
    ensures PaymentPlatform(Some(s)) == Some("Paytm")
  {
  }

  // ---------------------------------------------------------------------------
  // extract_payment_method: `(?:UPI|IMPS|NEFT|RTGS)\b`

  const MethodTokens: seq<string> := ["UPI", "IMPS", "NEFT", "RTGS"]

  /** One of the four tokens occurs at `i` and is followed by `\b`. No boundary is
      demanded in front of it. */
  predicate MethodAt(s: string, i: int, w: string) {
    w in MethodTokens && OccursAt(s, w, i) && RightBoundary(s, i + |w|)
  }

  /** The alternation tried at one position. */
  function MethodTokenAt(s: string, i: nat): (r: Option<string>)
    requires i <= |s|
    ensures r.Some? ==> MethodAt(s, i, r.value)
    ensures r.None? ==> forall w :: !MethodAt(s, i, w)
  {
    if OccursAt(s, "UPI", i) && RightBoundary(s, i + 3) then Some("UPI")
    else if OccursAt(s, "IMPS", i) && RightBoundary(s, i + 4) then Some("IMPS")
    else if OccursAt(s, "NEFT", i) && RightBoundary(s, i + 4) then Some("NEFT")
    else if OccursAt(s, "RTGS", i) && RightBoundary(s, i + 4) then Some("RTGS")
    else None
  }

  /** The leftmost position at or after `i` where a token matches, with the token. */
  function FirstMethodFrom(s: string, i: nat): (r: Option<(nat, string)>)
    requires i <= |s|
    ensures r.Some? ==> i <= r.value.0 && MethodAt(s, r.value.0, r.value.1)
    ensures r.Some? ==> forall k, w :: i <= k < r.value.0 ==> !MethodAt(s, k, w)
    ensures r.None? ==> forall k, w :: i <= k ==> !MethodAt(s, k, w)
    decreases |s| - i
  {
    match MethodTokenAt(s, i)
    case Some(w) => Some((i, w))
    case None => if i == |s| then None else FirstMethodFrom(s, i + 1)
  }

  /** `extract_payment_method`: the first element of `findall`. */
  function PaymentMethod(narration: Option<string>): (r: Option<string>)
    ensures r.Some? ==> r.value in MethodTokens
  {
    match FirstMethodFrom(HandleNan(narration), 0)
    case Some((_, w)) => Some(w)
    case None => None
  }

  /** The method is absent exactly when no token is followed by a boundary, and
      otherwise it is the token matching at the leftmost such position. */
  lemma PaymentMethodIsFirstMatch(narration: Option<string>)
    ensures PaymentMethod(narration).None? <==> forall i, w :: !MethodAt(HandleNan(narration), i, w)
    ensures PaymentMethod(narration).Some? ==>
      exists i ::
        && MethodAt(HandleNan(narration), i, PaymentMethod(narration).value)
        && forall k, w :: 0 <= k < i ==> !MethodAt(HandleNan(narration), k, w)
  {
    var s := HandleNan(narration);
    match FirstMethodFrom(s, 0)
    case Some((i, w)) =>
      assert MethodAt(s, i, w);
    case None =>
  }

  /** At most one token matches at a position: the four start with different letters. */
  lemma MethodAtUnique(s: string, i: int, w: string, w': string)
    requires MethodAt(s, i, w) && MethodAt(s, i, w')
    ensures w == w'
  {
    assert s[i] == w[0] && s[i] == w'[0];
  }

  /** The method is the one found at the leftmost matching position. */
  lemma PaymentMethodIsLeftmost(narration: Option<string>, i: nat, w: string)
    requires MethodAt(HandleNan(narration), i, w)
    requires forall k, w' :: 0 <= k < i ==> !MethodAt(HandleNan(narration), k, w')
    ensures PaymentMethod(narration) == Some(w)
  {
    var s := HandleNan(narration);
    var r := PaymentMethod(narration);
    PaymentMethodIsFirstMatch(narration);
    var i' :| MethodAt(s, i', r.value) && forall k, w' :: 0 <= k < i' ==> !MethodAt(s, k, w');
    assert i' == i;
    MethodAtUnique(s, i, w, r.value);
  }

  /** No boundary is demanded before the token: a reference like `XUPI/123`
      still yields UPI. */
  lemma MethodInsideWord(s: string)
    requires s == "XUPI/123"
    ensures PaymentMethod(Some(s)) == Some("UPI")
  {
    forall k, w | 0 <= k < 1
      ensures !MethodAt(s, k, w)
    {
      if OccursAt(s, w, 0) && |w| > 0 {
        assert s[0] == s[0..|w|][0] == w[0];
      }
    }
    PaymentMethodIsLeftmost(Some(s), 1, "UPI");
  }

  /** A boundary is demanded after it: `UPIX` yields no method. */
  lemma MethodNeedsBoundaryAfter(s: string)
    requires s == "UPIX"
    ensures PaymentMethod(Some(s)) == None
  {
    forall i, w
      ensures !MethodAt(s, i, w)
    {
      if OccursAt(s, w, i) && |w| > 0 {
        assert s[i] == s[i..i + |w|][0] == w[0];
      }
    }
    PaymentMethodIsFirstMatch(Some(s));
  }

  /** Two tokens in one narration: the earlier one is reported. */
  lemma EarlierMethodWins(s: string)
    requires s == "NEFT TO UPI"
    ensures PaymentMethod(Some(s)) == Some("NEFT")
  {
    PaymentMethodIsLeftmost(Some(s), 0, "NEFT");
  }

  // ---------------------------------------------------------------------------
  // extract_sender_receiver_name: `\b(?:[A-Z]+\s)+[A-Z]+\b`

  /** `s[i..j]` has the shape `(?:[A-Z]+\s)+[A-Z]+`: capitals and single
      whitespace characters, starting and ending with a capital, with at least
      one whitespace character, so at least two runs of capitals. */
  predicate NameSpan(s: string, i: int, j: int) {
    && 0 <= i < j <= |s|
    && IsUpper(s[i]) && IsUpper(s[j - 1])
    && (forall k :: i <= k < j ==> IsUpper(s[k]) || IsSpace(s[k]))
    && (forall k :: i <= k < j - 1 && IsSpace(s[k]) ==> IsUpper(s[k + 1]))
    && (exists k :: i <= k < j && IsSpace(s[k]))
  }

  /** A match of the whole pattern, both word boundaries included. */
  predicate NameMatch(s: string, i: int, j: int) {
    NameSpan(s, i, j) && LeftBoundary(s, i) && RightBoundary(s, j)
  }

  /** The run of capitals starting at `p`, as far as it goes. */
  function RunEnd(s: string, p: nat): (q: nat)
    requires p <= |s|
    ensures p <= q <= |s|
    ensures forall k :: p <= k < q ==> IsUpper(s[k])
    ensures q == |s| || !IsUpper(s[q])
    decreases |s| - p
  {
    if p < |s| && IsUpper(s[p]) then RunEnd(s, p + 1) else p
  }

  /** The runs from `i` up to `p` have each been followed by one whitespace
      character, and a run starts at `p`; `seen` says whether there was any. */
  predicate ChainPrefix(s: string, i: int, p: int, seen: bool) {
    && 0 <= i <= p < |s|
    && IsUpper(s[i]) && IsUpper(s[p])
    && (forall k :: i <= k < p ==> IsUpper(s[k]) || IsSpace(s[k]))
    && (forall k :: i <= k < p && IsSpace(s[k]) ==> IsUpper(s[k + 1]))
    && (seen <==> exists k :: i <= k < p && IsSpace(s[k]))
  }

  /** The greedy repetition with backtracking: the end of the longest match
      from `i` that ends after `p`, if any. */
  function LongestEnd(s: string, i: nat, p: nat, seen: bool): (r: Option<nat>)
    requires ChainPrefix(s, i, p, seen)
    ensures r.Some? ==> p < r.value && NameSpan(s, i, r.value) && RightBoundary(s, r.value)
    ensures forall j :: p < j && NameSpan(s, i, j) && RightBoundary(s, j) ==> r.Some? && j <= r.value
    decreases |s| - p
  {
    var q := RunEnd(s, p);
    var here := if seen && RightBoundary(s, q) then Some(q) else None;
    if q + 1 < |s| && IsSpace(s[q]) && IsUpper(s[q + 1]) then
      assert ChainPrefix(s, i, q + 1, true) by {
        assert i <= q < q + 1 && IsSpace(s[q]);
      }
      var longer := LongestEnd(s, i, q + 1, true);
      if longer.Some? then longer else here
    else
      here
  }

  /** The leftmost start at or after `i` with a match, and its longest match. */
  function FirstNameFrom(s: string, i: nat): (r: Option<(nat, nat)>)
    requires i <= |s|
    ensures r.Some? ==> i <= r.value.0 && NameMatch(s, r.value.0, r.value.1)
    ensures r.Some? ==> forall j :: NameMatch(s, r.value.0, j) ==> j <= r.value.1
    ensures r.Some? ==> forall k, j :: i <= k < r.value.0 ==> !NameMatch(s, k, j)
    ensures r.None? ==> forall k, j :: i <= k ==> !NameMatch(s, k, j)
    decreases |s| - i
  {
    if i == |s| then
      None
    else if IsUpper(s[i]) && LeftBoundary(s, i) then
      match LongestEnd(s, i, i, false)
      case Some(j) => Some((i, j))
      case None => FirstNameFrom(s, i + 1)
    else
      FirstNameFrom(s, i + 1)
  }

  /** `extract_sender_receiver_name`: the first element of `findall`. */
  function SenderReceiverName(narration: Option<string>): Option<string> {
    var s := HandleNan(narration);
    match FirstNameFrom(s, 0)
    case Some((i, j)) => Some(s[i..j])
    case None => None
  }

  /** The name is absent exactly when nothing matches; otherwise it is the
      longest match at the leftmost start where there is one. */
  lemma SenderReceiverNameIsFirstMatch(narration: Option<string>)
    ensures SenderReceiverName(narration).None? <==> forall i, j :: !NameMatch(HandleNan(narration), i, j)
    ensures SenderReceiverName(narration).Some? ==>
      exists i, j ::
        && NameMatch(HandleNan(narration), i, j)
        && SenderReceiverName(narration).value == HandleNan(narration)[i..j]
        && (forall k, j' :: 0 <= k < i ==> !NameMatch(HandleNan(narration), k, j'))
        && (forall j' :: NameMatch(HandleNan(narration), i, j') ==> j' <= j)
  {
    var s := HandleNan(narration);
    match FirstNameFrom(s, 0)
    case Some((i, j)) =>
      assert NameMatch(s, i, j);
    case None =>
  }

  /** The leftmost start with a match and the longest match there give the name. */
  lemma SenderReceiverNameIs(narration: Option<string>, i: nat, j: nat)
    requires NameMatch(HandleNan(narration), i, j)
    requires forall k, j' :: 0 <= k < i ==> !NameMatch(HandleNan(narration), k, j')
    requires forall j' :: NameMatch(HandleNan(narration), i, j') ==> j' <= j
    ensures SenderReceiverName(narration) == Some(HandleNan(narration)[i..j])
  {
    var s := HandleNan(narration);
    var (i', j') := FirstNameFrom(s, 0).value;
    assert NameMatch(s, i', j');
    assert i' == i;
    assert j' == j;
  }

  /** A name found is itself made of at least two runs of capitals separated by
      single whitespace characters, and it occurs in the narration. */
  lemma NameHasShape(narration: Option<string>)
    requires SenderReceiverName(narration).Some?
    ensures var n := SenderReceiverName(narration).value;
      NameSpan(n, 0, |n|) && exists k :: OccursAt(HandleNan(narration), n, k)
  {
    var s := HandleNan(narration);
    var (i, j) := FirstNameFrom(s, 0).value;
    assert NameMatch(s, i, j);
    SpanSlice(s, i, j);
    assert OccursAt(s, s[i..j], i);
  }

  /** A span of a string keeps its shape when cut out of the string. */
  lemma SpanSlice(s: string, i: int, j: int)
    requires NameSpan(s, i, j)
    ensures NameSpan(s[i..j], 0, j - i)
  {
    var n := s[i..j];
    assert forall k :: 0 <= k < |n| ==> n[k] == s[i + k];
    var k :| i <= k < j && IsSpace(s[k]);
    assert IsSpace(n[k - i]);
  }

  /** Every name holds a capital, one whitespace character and a capital in a row. */
  lemma NameHasCapitalSpaceCapital(s: string, i: int, j: int)
    requires NameSpan(s, i, j)
    ensures exists k :: i < k < j - 1 && IsUpper(s[k - 1]) && IsSpace(s[k]) && IsUpper(s[k + 1])
  {
    var k :| i <= k < j && IsSpace(s[k]);
    assert k != i && k != j - 1;
    assert IsUpper(s[k - 1]);
    assert IsUpper(s[k + 1]);
  }

  /** In a transfer narration the capitals after the lower-case words are the
      name, and the method token in front of them is not part of it. */
  lemma TransferNamesPayee(s: string)
    requires s == "UPI to JOHN SMITH"
    ensures SenderReceiverName(Some(s)) == Some("JOHN SMITH")
    ensures PaymentMethod(Some(s)) == Some("UPI")
  {
    TransferPayeeMatches(s);
    forall k, j | 0 <= k < 7
      ensures !NameMatch(s, k, j)
    {
      TransferNoEarlyName(s, k, j);
    }
    SenderReceiverNameIs(Some(s), 7, 17);
    assert s[7..17] == "JOHN SMITH";
    PaymentMethodIsLeftmost(Some(s), 0, "UPI");
  }

  lemma TransferPayeeMatches(s: string)
    requires s == "UPI to JOHN SMITH"
    ensures NameMatch(s, 7, 17)
  {
    assert IsSpace(s[11]);
  }

  lemma TransferNoEarlyName(s: string, k: int, j: int)
    requires s == "UPI to JOHN SMITH" && 0 <= k < 7
    ensures !NameSpan(s, k, j)
  {
    if j > 4 {
      assert !IsUpper(s[4]) && !IsSpace(s[4]);
    } else if NameSpan(s, k, j) {
      NameHasCapitalSpaceCapital(s, k, j);
      assert false;
    }
  }

  /** A narration without capitals has neither a name nor a method. */
  lemma LowerCaseNarrationUnnamed(s: string)
    requires s == "cash wdl"
    ensures SenderReceiverName(Some(s)) == None
    ensures PaymentMethod(Some(s)) == None
  {
    forall i, j
      ensures !NameMatch(s, i, j)
    {
    }
    SenderReceiverNameIsFirstMatch(Some(s));
    forall i, w
      ensures !MethodAt(s, i, w)
    {
      if OccursAt(s, w, i) && |w| > 0 {
        assert s[i] == s[i..i + |w|][0] == w[0];
      }
    }
    PaymentMethodIsFirstMatch(Some(s));
  }

  /** Two capitals separated by two spaces are not a name. */
  lemma DoubleSpaceIsNoName(s: string)
    requires s == "JOHN  SMITH"
    ensures SenderReceiverName(Some(s)) == None
  {
    forall i, j ensures !NameSpan(s, i, j) {
      DoubleSpaceNoSpan(s, i, j);
    }
    SenderReceiverNameIsFirstMatch(Some(s));
  }

  lemma DoubleSpaceNoSpan(s: string, i: int, j: int)
    requires s == "JOHN  SMITH"
    ensures !NameSpan(s, i, j)
  {
    if NameSpan(s, i, j) {
      NameHasCapitalSpaceCapital(s, i, j);
      assert false;
    }
  }

  /** A capitalised word after a run of capitals is not part of a name. */
  lemma MixedCaseIsNoName(s: string)
    requires s == "JOHN Smith"
    ensures SenderReceiverName(Some(s)) == None
  {
    forall i, j ensures !NameMatch(s, i, j) {
      MixedCaseNoMatch(s, i, j);
    }
    SenderReceiverNameIsFirstMatch(Some(s));
  }

  lemma MixedCaseNoMatch(s: string, i: int, j: int)
    requires s == "JOHN Smith"
    ensures !NameMatch(s, i, j)
  {
  }

  /** A missing narration is classified as nothing at all. */
  lemma MissingNarrationUnclassified()
    ensures SenderReceiverName(None) == None
    ensures PaymentMethod(None) == None
    ensures PaymentPlatform(None) == None
  {
  }
}
