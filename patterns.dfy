/** The four regular expressions that `main` runs over the recognised text,
    each written out as a matcher over `seq<char>` with CPython's `re`
    semantics (leftmost start, alternatives in order, greedy optional
    items with backtracking), and what their results are used for. */
module TextPatterns {
  import opened Wrappers

  /** `.` without DOTALL matches every character except a newline. */
  predicate IsDot(c: char) {
    c != '\n'
  }

  /** `\d`, restricted to the ASCII digits. */
  predicate IsDigit(c: char) {
    '0' <= c <= '9'
  }

  function UpperOf(p: char): char {
    if 'a' <= p <= 'z' then (p as int - 32) as char
    else if p == '\U{E9}' then '\U{C9}'
    else p
  }

  /** Under re.IGNORECASE the lower-case pattern letter `p` accepts every
      character whose simple lower-case mapping is `p`; for 'i' CPython also
      accepts the dotless 'ı'. For the letters these patterns use that is
      the letter itself, its upper case, and for 'i' also 'İ' and 'ı'. */
  predicate FoldEq(c: char, p: char) {
    c == p || c == UpperOf(p) || (p == 'i' && (c == '\U{130}' || c == '\U{131}'))
  }

  /** A case-insensitive word pattern: each position lists its alternatives,
      so `(é|e)` is the position "\U{E9}e". */
  type Word = seq<string>

  const Credito: Word := ["c", "r", "\U{E9}e", "d", "i", "t", "o"]
  const Debito: Word := ["d", "\U{E9}e", "b", "i", "t", "o"]
  const Dinheiro: Word := ["d", "i", "n", "h", "e", "i", "r", "o"]
  const CnpjWord: Word := ["c", "n", "p", "j"]

  predicate ClassMatch(c: char, alts: string) {
    exists k :: 0 <= k < |alts| && FoldEq(c, alts[k])
  }

  predicate WordAt(s: string, i: nat, w: Word) {
    i + |w| <= |s| && forall j :: 0 <= j < |w| ==> ClassMatch(s[i + j], w[j])
  }

  /** `r` equals the lower-case word `w` ignoring case. */
  predicate FoldEqWord(r: string, w: string) {
    |r| == |w| && forall j :: 0 <= j < |r| ==> FoldEq(r[j], w[j])
  }

  predicate IsPaymentWord(r: string) {
    || FoldEqWord(r, "cr\U{E9}dito") || FoldEqWord(r, "credito")
    || FoldEqWord(r, "d\U{E9}bito") || FoldEqWord(r, "debito")
    || FoldEqWord(r, "dinheiro")
  }

  /** `(Cr(é|e)dito|D(é|e)bito|Dinheiro)` at position i: the end of the match. */
  function PaymentAt(s: string, i: nat): (r: Option<nat>)
    ensures r.Some? ==> i < r.value <= |s| && IsPaymentWord(s[i..r.value])
    ensures (exists e :: i <= e <= |s| && IsPaymentWord(s[i..e])) ==> r.Some?
  {
    if WordAt(s, i, Credito) then
      CreditoIsPaymentWord(s, i); Some(i + 7)
    else if WordAt(s, i, Debito) then
      DebitoIsPaymentWord(s, i); Some(i + 6)
    else if WordAt(s, i, Dinheiro) then
      DinheiroIsPaymentWord(s, i); Some(i + 8)
    else
      NoPaymentWordAt(s, i); None
  }

  /** Where none of the three alternatives matches, no payment word starts. */
  lemma NoPaymentWordAt(s: string, i: nat)
    requires !WordAt(s, i, Credito) && !WordAt(s, i, Debito) && !WordAt(s, i, Dinheiro)
    ensures forall e :: i <= e <= |s| ==> !IsPaymentWord(s[i..e])
  {
    forall e | i <= e <= |s| ensures !IsPaymentWord(s[i..e]) {
      var r := s[i..e];
      if FoldEqWord(r, "cr\U{E9}dito") || FoldEqWord(r, "credito") {
        CreditoLetters();
        if FoldEqWord(r, "cr\U{E9}dito") { FoldWordAt(s, i, r, "cr\U{E9}dito", Credito); }
        else { FoldWordAt(s, i, r, "credito", Credito); }
      } else if FoldEqWord(r, "d\U{E9}bito") || FoldEqWord(r, "debito") {
        DebitoLetters();
        if FoldEqWord(r, "d\U{E9}bito") { FoldWordAt(s, i, r, "d\U{E9}bito", Debito); }
        else { FoldWordAt(s, i, r, "debito", Debito); }
      } else if FoldEqWord(r, "dinheiro") {
        DinheiroLetters();
        FoldWordAt(s, i, r, "dinheiro", Dinheiro);
      }
    }
  }

  /** A text equal, ignoring case, to one spelling of a word pattern matches it. */
  lemma FoldWordAt(s: string, i: nat, r: string, w: string, word: Word)
    requires i + |r| <= |s| && r == s[i..i + |r|] && FoldEqWord(r, w)
    requires |word| == |w| && forall j :: 0 <= j < |w| ==> w[j] in word[j]
    ensures WordAt(s, i, word)
  {
    forall j | 0 <= j < |word| ensures ClassMatch(s[i + j], word[j]) {
      assert r[j] == s[i + j] && FoldEq(r[j], w[j]);
      var m :| 0 <= m < |word[j]| && word[j][m] == w[j];
    }
  }

  lemma CreditoLetters()
    ensures |Credito| == |"cr\U{E9}dito"| == |"credito"|
    ensures forall j :: 0 <= j < 7 ==> "cr\U{E9}dito"[j] in Credito[j] && "credito"[j] in Credito[j]
  {
  }

  lemma DebitoLetters()
    ensures |Debito| == |"d\U{E9}bito"| == |"debito"|
    ensures forall j :: 0 <= j < 6 ==> "d\U{E9}bito"[j] in Debito[j] && "debito"[j] in Debito[j]
  {
  }

  lemma DinheiroLetters()
    ensures |Dinheiro| == |"dinheiro"|
    ensures forall j :: 0 <= j < 8 ==> "dinheiro"[j] in Dinheiro[j]
  {
  }

  lemma CreditoIsPaymentWord(s: string, i: nat)
    requires WordAt(s, i, Credito)
    ensures FoldEqWord(s[i..i + 7], "cr\U{E9}dito") || FoldEqWord(s[i..i + 7], "credito")
  {
    var r := s[i..i + 7];
    forall j | 0 <= j < 7 ensures r[j] == s[i + j] && ClassMatch(r[j], Credito[j]) {
      assert ClassMatch(s[i + j], Credito[j]);
    }
  }

  lemma DebitoIsPaymentWord(s: string, i: nat)
    requires WordAt(s, i, Debito)
    ensures FoldEqWord(s[i..i + 6], "d\U{E9}bito") || FoldEqWord(s[i..i + 6], "debito")
  {
    var r := s[i..i + 6];
    forall j | 0 <= j < 6 ensures r[j] == s[i + j] && ClassMatch(r[j], Debito[j]) {
      assert ClassMatch(s[i + j], Debito[j]);
    }
  }

  lemma DinheiroIsPaymentWord(s: string, i: nat)
    requires WordAt(s, i, Dinheiro)
    ensures FoldEqWord(s[i..i + 8], "dinheiro")
  {
    var r := s[i..i + 8];
    forall j | 0 <= j < 8 ensures r[j] == s[i + j] && ClassMatch(r[j], Dinheiro[j]) {
      assert ClassMatch(s[i + j], Dinheiro[j]);
    }
  }

  /** k consecutive `.` items match from p. */
  predicate DotsAt(s: string, p: nat, k: nat) {
    p + k <= |s| && forall j :: p <= j < p + k ==> IsDot(s[j])
  }

  /** A gap of g newline-free characters from i, then a '$'. */
  predicate GapFits(s: string, i: nat, g: nat) {
    DotsAt(s, i, g) && i + g < |s| && s[i + g] == '$'
  }

  /** `.?` repeated k times, then `\$`. The optional items are greedy and are
      given back one at a time, so the longest newline-free gap that is
      followed by '$' wins. */
  function DotsThenDollar(s: string, i: nat, k: nat): (r: Option<nat>)
    decreases k
    ensures r.Some? ==> i < r.value <= i + k + 1 && r.value <= |s|
    ensures r.Some? ==> s[r.value - 1] == '$' && DotsAt(s, i, r.value - 1 - i)
    ensures r.Some? ==> forall g :: r.value - 1 - i < g <= k ==> !GapFits(s, i, g)
    ensures r.None? <==> forall g :: 0 <= g <= k ==> !GapFits(s, i, g)
  {
    if GapFits(s, i, k) then Some(i + k + 1)
    else if k == 0 then None
    else DotsThenDollar(s, i, k - 1)
  }

  /** `((.?.?.?)|R?)\$` at position i. The second alternative is left out:
      it can only match where the first one already does
      (RAlternativeNeverWins). */
  function CurrencyAt(s: string, i: nat): (r: Option<nat>)
    ensures r.Some? ==> i < r.value <= i + 4 && r.value <= |s| && GapFits(s, i, r.value - 1 - i)
    ensures r.Some? ==> forall g :: r.value - 1 - i < g <= 3 ==> !GapFits(s, i, g)
    ensures r.None? <==> forall g :: 0 <= g <= 3 ==> !GapFits(s, i, g)
  {
    DotsThenDollar(s, i, 3)
  }

  /** n consecutive `\d` items match from p. */
  predicate DigitsAt(s: string, p: nat, n: nat)
    decreases n
  {
    p + n <= |s| && (n == 0 || (IsDigit(s[p]) && DigitsAt(s, p + 1, n - 1)))
  }

  /** The n items read one digit each. */
  lemma {:induction false} DigitsAtEach(s: string, p: nat, n: nat)
    ensures DigitsAt(s, p, n) <==> p + n <= |s| && forall j :: p <= j < p + n ==> IsDigit(s[j])
    decreases n
  {
    if n > 0 {
      DigitsAtEach(s, p + 1, n - 1);
    }
  }

  /** The layout as a chain of groups: each is `\d{n}` followed by an
      optional literal separator when it has one. The separators are never
      digits and a digit always follows them, so giving a separator back can
      never let the rest match: taking it whenever it is there is what
      backtracking settles on. */
  datatype Stages = Done | Group(digits: nat, sep: Option<char>, rest: Stages)

  /** `\d{2}\.?\d{3}\.?\d{3}\/?\d{4}-?\d{2}` */
  const Layout: Stages :=
    Group(2, Some('.'), Group(3, Some('.'), Group(3, Some('/'), Group(4, Some('-'), Group(2, None, Done)))))

  /** Where the next group starts once the separator `sep?` was tried at p. */
  function AfterSeparator(s: string, p: nat, sep: Option<char>): nat {
    if sep.Some? && p < |s| && s[p] == sep.value then p + 1 else p
  }

  function DigitCount(stages: Stages): nat {
    if stages.Done? then 0 else stages.digits + DigitCount(stages.rest)
  }

  function SeparatorCount(stages: Stages): nat {
    if stages.Done? then 0 else (if stages.sep.Some? then 1 else 0) + SeparatorCount(stages.rest)
  }

  /** The groups matched one after the other from p: where they end. */
  function StagesEnd(s: string, p: nat, stages: Stages): (r: Option<nat>)
    decreases stages
    ensures r.Some? ==> p <= r.value <= |s|
  {
    if stages.Done? then (if p <= |s| then Some(p) else None)
    else if !DigitsAt(s, p, stages.digits) then None
    else StagesEnd(s, AfterSeparator(s, p + stages.digits, stages.sep), stages.rest)
  }

  /** The groups take all their digits and at most their separators. */
  lemma {:induction false} StagesBounds(s: string, p: nat, stages: Stages)
    requires StagesEnd(s, p, stages).Some?
    ensures p + DigitCount(stages) <= StagesEnd(s, p, stages).value <= p + DigitCount(stages) + SeparatorCount(stages)
    decreases stages
  {
    if stages.Group? {
      var a := AfterSeparator(s, p + stages.digits, stages.sep);
      assert StagesEnd(s, p, stages) == StagesEnd(s, a, stages.rest);
      StagesBounds(s, a, stages.rest);
    }
  }

  /** A layout match is 14 digits and up to 4 separators long. */
  lemma {:induction false} LayoutBounds(s: string, p: nat)
    requires StagesEnd(s, p, Layout).Some?
    ensures p + 14 <= StagesEnd(s, p, Layout).value <= p + 18
  {
    StagesBounds(s, p, Layout);
    assert DigitCount(Layout) == 14 && SeparatorCount(Layout) == 4;
  }

  /** The layout at position p: the end of its match. */
  function LayoutEnd(s: string, p: nat): (r: Option<nat>)
    ensures r.Some? ==> p + 14 <= r.value <= p + 18 && r.value <= |s|
  {
    if StagesEnd(s, p, Layout).None? then None
    else LayoutBounds(s, p); StagesEnd(s, p, Layout)
  }

  /** A gap of g newline-free characters from p, then the layout. */
  predicate LayoutGapFits(s: string, p: nat, g: nat) {
    DotsAt(s, p, g) && LayoutEnd(s, p + g).Some?
  }

  /** `.?` repeated k times, then the layout. As with `DotsThenDollar`, the
      longest gap after which the layout matches wins. */
  function GapThenLayout(s: string, p: nat, k: nat): (r: Option<nat>)
    decreases k
    ensures r.Some? ==> p < r.value <= |s|
    ensures r.Some? ==> exists g :: 0 <= g <= k && LayoutGapFits(s, p, g) && r == LayoutEnd(s, p + g)
                                   && forall h :: g < h <= k ==> !LayoutGapFits(s, p, h)
    ensures r.None? <==> forall g :: 0 <= g <= k ==> !LayoutGapFits(s, p, g)
  {
    if LayoutGapFits(s, p, k) then LayoutEnd(s, p + k)
    else if k == 0 then None
    else
      var r := GapThenLayout(s, p, k - 1);
      LongerGapFails(s, p, k, r);
      r
  }

  /** One step of `GapThenLayout`: when the gap of k does not fit, what the
      search from k - 1 down promises holds from k down. */
  lemma LongerGapFails(s: string, p: nat, k: nat, r: Option<nat>)
    requires 0 < k && !LayoutGapFits(s, p, k)
    requires r.Some? ==> exists g :: 0 <= g <= k - 1 && LayoutGapFits(s, p, g) && r == LayoutEnd(s, p + g)
                                   && forall h :: g < h <= k - 1 ==> !LayoutGapFits(s, p, h)
    requires r.None? <==> forall g :: 0 <= g <= k - 1 ==> !LayoutGapFits(s, p, g)
    ensures r.Some? ==> exists g :: 0 <= g <= k && LayoutGapFits(s, p, g) && r == LayoutEnd(s, p + g)
                                   && forall h :: g < h <= k ==> !LayoutGapFits(s, p, h)
    ensures r.None? <==> forall g :: 0 <= g <= k ==> !LayoutGapFits(s, p, g)
  {
    if r.Some? {
      var g :| 0 <= g <= k - 1 && LayoutGapFits(s, p, g) && r == LayoutEnd(s, p + g)
               && forall h :: g < h <= k - 1 ==> !LayoutGapFits(s, p, h);
      forall h | g < h <= k
        ensures !LayoutGapFits(s, p, h)
      {
        if h == k {
        }
      }
    } else {
      forall g | 0 <= g <= k
        ensures !LayoutGapFits(s, p, g)
      {
        if g == k {
        }
      }
    }
  }

  /** `(CNPJ)(.?.?.?)` + layout, case-insensitively, at position i: the
      label, then the longest gap of at most three newline-free characters
      after which the layout matches. */
  function CnpjAt(s: string, i: nat): (r: Option<nat>)
    ensures r.Some? ==> i < r.value <= |s|
    ensures var p := i + 4;
      r.Some? <==> WordAt(s, i, CnpjWord) && exists g :: 0 <= g <= 3 && LayoutGapFits(s, p, g)
    ensures var p := i + 4;
      r.Some? ==> exists g :: 0 <= g <= 3 && LayoutGapFits(s, p, g) && r == LayoutEnd(s, p + g)
                              && forall h :: g < h <= 3 ==> !LayoutGapFits(s, p, h)
  {
    if WordAt(s, i, CnpjWord) then GapThenLayout(s, i + 4, 3) else None
  }

  datatype Pattern = PaymentPattern | CurrencyPattern | CnpjPattern | CnpjNumberPattern

  /** The end of the match of pattern p that starts at i, if any. */
  function MatchAt(p: Pattern, s: string, i: nat): (r: Option<nat>)
    ensures r.Some? ==> i < r.value <= |s|
  {
    match p
    case PaymentPattern => PaymentAt(s, i)
    case CurrencyPattern => CurrencyAt(s, i)
    case CnpjPattern => CnpjAt(s, i)
    case CnpjNumberPattern => LayoutEnd(s, i)
  }

  datatype Span = Span(start: nat, end: nat)

  /** `re.search(p, s[from:])`: the leftmost position with a match. */
  function Search(p: Pattern, s: string, from: nat): (r: Option<Span>)
    decreases |s| - from
    ensures r.Some? ==> from <= r.value.start < r.value.end <= |s|
    ensures r.Some? ==> MatchAt(p, s, r.value.start) == Some(r.value.end)
    ensures r.Some? ==> forall j :: from <= j < r.value.start ==> MatchAt(p, s, j).None?
    ensures r.None? ==> forall j :: from <= j <= |s| ==> MatchAt(p, s, j).None?
  {
    if from > |s| then None
    else match MatchAt(p, s, from)
      case Some(e) => Some(Span(from, e))
      case None => Search(p, s, from + 1)
  }

  /** i is the leftmost position where p matches in s. */
  ghost predicate FirstMatchAt(p: Pattern, s: string, i: nat) {
    i <= |s| && MatchAt(p, s, i).Some? && forall j :: 0 <= j < i ==> MatchAt(p, s, j).None?
  }

  /** `tipo_pag.group() if tipo_pag else ''` */
  function PaymentMethod(content: string): (r: string)
    ensures r == "" || IsPaymentWord(r)
    ensures r == "" <==> forall i :: 0 <= i <= |content| ==> PaymentAt(content, i).None?
    ensures r != "" ==> exists i: nat :: FirstMatchAt(PaymentPattern, content, i) && r == content[i..PaymentAt(content, i).value]
  {
    match Search(PaymentPattern, content, 0)
    case Some(sp) =>
      assert FirstMatchAt(PaymentPattern, content, sp.start);
      content[sp.start..sp.end]
    case None =>
      assert forall i :: 0 <= i <= |content| ==> MatchAt(PaymentPattern, content, i) == PaymentAt(content, i);
      ""
  }

  /** In terms of the words alone: the payment method is `''` exactly when
      no payment word occurs in the text, and otherwise a payment word that
      starts where the leftmost payment word starts. */
  lemma LeftmostPaymentWord(content: string)
    ensures PaymentMethod(content) == "" <==> forall i, e :: 0 <= i <= e <= |content| ==> !IsPaymentWord(content[i..e])
    ensures PaymentMethod(content) != "" ==> exists i, e :: (0 <= i <= e <= |content|
      && content[i..e] == PaymentMethod(content)
      && forall j, e' :: 0 <= j < i && j <= e' <= |content| ==> !IsPaymentWord(content[j..e']))
  {
    var r := PaymentMethod(content);
    if r == "" {
      forall i, e | 0 <= i <= e <= |content| ensures !IsPaymentWord(content[i..e]) {
        assert PaymentAt(content, i).None?;
      }
    } else {
      var i: nat :| FirstMatchAt(PaymentPattern, content, i) && r == content[i..PaymentAt(content, i).value];
      forall j, e | 0 <= j < i && j <= e <= |content| ensures !IsPaymentWord(content[j..e]) {
        assert MatchAt(PaymentPattern, content, j).None?;
      }
      var e := PaymentAt(content, i).value;
      assert content[i..e] == r;
    }
  }

  /** `moeda.group() if moeda else 'R$'` */
  function Currency(content: string): (r: string)
    ensures (forall i :: 0 <= i <= |content| ==> CurrencyAt(content, i).None?) ==> r == "R$"
    ensures r != "R$" ==> exists i: nat :: FirstMatchAt(CurrencyPattern, content, i) && r == content[i..CurrencyAt(content, i).value]
  {
    match Search(CurrencyPattern, content, 0)
    case Some(sp) =>
      assert FirstMatchAt(CurrencyPattern, content, sp.start);
      content[sp.start..sp.end]
    case None =>
      assert forall i :: 0 <= i <= |content| ==> MatchAt(CurrencyPattern, content, i) == CurrencyAt(content, i);
      "R$"
  }

  /** A '$' at i is matched by the first alternative with an empty gap. */
  lemma {:induction false} DollarStartsMatch(s: string, i: nat, k: nat)
    ensures i < |s| && s[i] == '$' ==> DotsThenDollar(s, i, k).Some?
    decreases k
  {
    if k > 0 {
      DollarStartsMatch(s, i, k - 1);
    }
  }

  /** The second alternative `R?\$` never matches where `.?.?.?\$` fails:
      'R' is itself a `.`, and so is nothing at all. */
  lemma RAlternativeNeverWins(s: string, i: nat)
    requires DotsThenDollar(s, i, 3).None?
    ensures !(i + 1 < |s| && s[i] == 'R' && s[i + 1] == '$')
    ensures !(i < |s| && s[i] == '$')
  {
    assert DotsThenDollar(s, i, 2).None? && DotsThenDollar(s, i, 1).None?;
    assert i + 1 < |s| && s[i] == 'R' ==> DotsAt(s, i, 1);
    DollarStartsMatch(s, i, 3);
  }

  /** Text without '$' gets the default currency "R$". */
  lemma NoDollarGivesDefault(content: string)
    requires forall j :: 0 <= j < |content| ==> content[j] != '$'
    ensures Currency(content) == "R$"
  {
  }

  /** What the currency pattern matches: 1 to 4 characters, the last one
      '$', no newline. */
  lemma CurrencyMatchShape(s: string, i: nat)
    requires CurrencyAt(s, i).Some?
    ensures var e := CurrencyAt(s, i).value;
      && i + 1 <= e <= i + 4 && s[e - 1] == '$'
      && forall q :: i <= q < e ==> s[q] != '\n'
  {
  }

  /** Text with a '$' yields the leftmost match, 1 to 4 characters ending in
      '$' with no newline in it. */
  lemma {:induction false} DollarGivesMatch(content: string, j: nat)
    requires j < |content| && content[j] == '$'
    ensures var r := Currency(content);
      && 1 <= |r| <= 4 && r[|r| - 1] == '$'
      && (forall q :: 0 <= q < |r| ==> r[q] != '\n')
      && exists i: nat :: FirstMatchAt(CurrencyPattern, content, i) && r == content[i..CurrencyAt(content, i).value]
  {
    DollarStartsMatch(content, j, 3);
    assert MatchAt(CurrencyPattern, content, j).Some?;
    SearchFindsSome(CurrencyPattern, content, j);
    FoundCurrencyShape(content);
  }

  /** What the search found is the leftmost match, of the shape above. */
  lemma {:induction false} FoundCurrencyShape(content: string)
    requires Search(CurrencyPattern, content, 0).Some?
    ensures var r := Currency(content);
      && 1 <= |r| <= 4 && r[|r| - 1] == '$'
      && (forall q :: 0 <= q < |r| ==> r[q] != '\n')
      && exists i: nat :: FirstMatchAt(CurrencyPattern, content, i) && r == content[i..CurrencyAt(content, i).value]
  {
    var sp := Search(CurrencyPattern, content, 0).value;
    var i, e := sp.start, sp.end;
    assert CurrencyAt(content, i) == Some(e);
    assert FirstMatchAt(CurrencyPattern, content, i);
    assert Currency(content) == content[i..e];
    MatchedTextShape(content, i);
  }

  /** The text of a currency match at i has the shape above. */
  lemma MatchedTextShape(s: string, i: nat)
    requires CurrencyAt(s, i).Some?
    ensures var r := s[i..CurrencyAt(s, i).value];
      && 1 <= |r| <= 4 && r[|r| - 1] == '$'
      && (forall q :: 0 <= q < |r| ==> r[q] != '\n')
  {
    var e := CurrencyAt(s, i).value;
    CurrencyMatchShape(s, i);
    var r := s[i..e];
    assert forall q :: 0 <= q < |r| ==> r[q] == s[i + q];
  }

  /** The default does not mean the text has no '$': "R$" is also what the
      pattern reads off a price. */
  lemma DefaultCurrencyAlsoMatched()
    ensures Currency("R$ 5") == "R$"
  {
    var s := "R$ 5";
    assert DotsAt(s, 0, 1);
    assert DotsThenDollar(s, 0, 3) == Some(2);
    assert Search(CurrencyPattern, s, 0) == Some(Span(0, 2));
  }

  /** `s.replace(c, '')` */
  function RemoveChar(s: string, c: char): string {
    if s == [] then []
    else (if s[0] == c then [] else [s[0]]) + RemoveChar(s[1..], c)
  }

  predicate IsPunctuation(c: char) {
    c == '.' || c == '/' || c == '-'
  }

  /** `cnpj.replace('.', '').replace('/', '').replace('-', '')` */
  function StripPunctuation(s: string): string {
    RemoveChar(RemoveChar(RemoveChar(s, '.'), '/'), '-')
  }

  /** A one-pass filter that keeps every character but the three separators. */
  function KeepUnpunctuated(s: string): string {
    if s == [] then []
    else (if IsPunctuation(s[0]) then [] else [s[0]]) + KeepUnpunctuated(s[1..])
  }

  lemma {:induction false} KeepDropsSeparators(s: string)
    ensures forall j :: 0 <= j < |KeepUnpunctuated(s)| ==> !IsPunctuation(KeepUnpunctuated(s)[j])
  {
    if s != [] {
      KeepDropsSeparators(s[1..]);
      var h := if IsPunctuation(s[0]) then [] else [s[0]];
      var t := KeepUnpunctuated(s[1..]);
      assert KeepUnpunctuated(s) == h + t;
      assert forall j :: |h| <= j < |h| + |t| ==> (h + t)[j] == t[j - |h|];
    }
  }

  lemma {:induction false} RemoveCharAppend(a: string, b: string, c: char)
    ensures RemoveChar(a + b, c) == RemoveChar(a, c) + RemoveChar(b, c)
  {
    if a != [] {
      assert (a + b)[0] == a[0] && (a + b)[1..] == a[1..] + b;
      RemoveCharAppend(a[1..], b, c);
      var h := if a[0] == c then [] else [a[0]];
      assert RemoveChar(a + b, c) == h + RemoveChar(a[1..] + b, c);
      assert RemoveChar(a, c) == h + RemoveChar(a[1..], c);
    } else {
      assert a + b == b;
    }
  }

  /** The three replacements remove exactly the separators and keep every
      other character, in order. */
  lemma {:induction false} StripKeepsTheRest(s: string)
    ensures StripPunctuation(s) == KeepUnpunctuated(s)
  {
    if s != [] {
      StripKeepsTheRest(s[1..]);
      var h := [s[0]];
      assert s == h + s[1..];
      RemoveCharAppend(h, s[1..], '.');
      var t1 := RemoveChar(s[1..], '.');
      RemoveCharAppend(RemoveChar(h, '.'), t1, '/');
      var t2 := RemoveChar(t1, '/');
      RemoveCharAppend(RemoveChar(RemoveChar(h, '.'), '/'), t2, '-');
    }
  }

  /** The same filter, over the characters of s from p up to e. */
  function KeepRange(s: string, p: nat, e: nat): string
    requires p <= e <= |s|
    decreases e - p
  {
    if p == e then []
    else (if IsPunctuation(s[p]) then [] else [s[p]]) + KeepRange(s, p + 1, e)
  }

  /** Filtering a slice is filtering its range. */
  lemma {:induction false} KeepSlice(s: string, p: nat, e: nat)
    requires p <= e <= |s|
    ensures KeepUnpunctuated(s[p..e]) == KeepRange(s, p, e)
    decreases e - p
  {
    if p < e {
      assert s[p..e][0] == s[p] && s[p..e][1..] == s[p + 1..e];
      KeepSlice(s, p + 1, e);
    }
  }

  lemma {:induction false} KeepRangeSplit(s: string, p: nat, m: nat, e: nat)
    requires p <= m <= e <= |s|
    ensures KeepRange(s, p, e) == KeepRange(s, p, m) + KeepRange(s, m, e)
    decreases m - p
  {
    if p < m {
      KeepRangeSplit(s, p + 1, m, e);
      var h := if IsPunctuation(s[p]) then [] else [s[p]];
      assert h + (KeepRange(s, p + 1, m) + KeepRange(s, m, e)) == (h + KeepRange(s, p + 1, m)) + KeepRange(s, m, e);
    }
  }

  /** A run of digits passes the filter unchanged. */
  lemma {:induction false} KeepRangeDigits(s: string, p: nat, n: nat)
    requires DigitsAt(s, p, n)
    ensures KeepRange(s, p, p + n) == s[p..p + n]
    decreases n
  {
    if n > 0 {
      KeepRangeDigits(s, p + 1, n - 1);
      assert s[p..p + n] == [s[p]] + s[p + 1..p + n];
    }
  }

  /** A registry key: exactly fourteen digits. */
  predicate IsCnpjKey(k: string) {
    |k| == 14 && forall j :: 0 <= j < |k| ==> IsDigit(k[j])
  }

  predicate IsDigitString(t: string) {
    forall j :: 0 <= j < |t| ==> IsDigit(t[j])
  }

  /** Filtering one group keeps its digits and drops its separator. */
  lemma {:induction false} StageKeepsDigits(s: string, p: nat, n: nat, sep: Option<char>, e: nat)
    requires sep.Some? ==> IsPunctuation(sep.value)
    requires DigitsAt(s, p, n)
    requires AfterSeparator(s, p + n, sep) <= e <= |s|
    ensures KeepRange(s, p, e) == s[p..p + n] + KeepRange(s, AfterSeparator(s, p + n, sep), e)
  {
    var m := p + n;
    KeepRangeSplit(s, p, m, e);
    KeepRangeDigits(s, p, n);
    if AfterSeparator(s, m, sep) == m + 1 {
      assert KeepRange(s, m, e) == KeepRange(s, m + 1, e);
    }
  }

  predicate PunctuationSeparators(stages: Stages) {
    stages.Group? ==>
      (stages.sep.Some? ==> IsPunctuation(stages.sep.value)) && PunctuationSeparators(stages.rest)
  }

  /** The digit runs the groups read, one after the other; a group that
      would run past the end of s reads nothing. */
  function StagesDigits(s: string, p: nat, stages: Stages): string
    decreases stages
  {
    if stages.Done? || |s| < p + stages.digits then []
    else s[p..p + stages.digits] + StagesDigits(s, AfterSeparator(s, p + stages.digits, stages.sep), stages.rest)
  }

  /** A group that matched hands over to the next one, which ends where
      the whole does. */
  lemma GroupStep(s: string, p: nat, stages: Stages)
    requires stages.Group? && StagesEnd(s, p, stages).Some?
    ensures DigitsAt(s, p, stages.digits)
    ensures StagesEnd(s, AfterSeparator(s, p + stages.digits, stages.sep), stages.rest) == StagesEnd(s, p, stages)
  {
  }

  /** The digit runs of the groups are this group's run and the rest's. */
  lemma GroupDigits(s: string, p: nat, stages: Stages)
    requires stages.Group? && p + stages.digits <= |s|
    ensures StagesDigits(s, p, stages)
      == s[p..p + stages.digits] + StagesDigits(s, AfterSeparator(s, p + stages.digits, stages.sep), stages.rest)
  {
  }

  /** The groups' digit runs add up to DigitCount digits. */
  lemma {:induction false} StagesDigitsShape(s: string, p: nat, stages: Stages)
    requires StagesEnd(s, p, stages).Some?
    ensures |StagesDigits(s, p, stages)| == DigitCount(stages)
    ensures IsDigitString(StagesDigits(s, p, stages))
    decreases stages
  {
    if stages.Group? {
      GroupStep(s, p, stages);
      StagesDigitsShape(s, AfterSeparator(s, p + stages.digits, stages.sep), stages.rest);
      GroupShape(s, p, stages);
    }
  }

  /** A group of digits in front of digit runs of the right length. */
  lemma GroupShape(s: string, p: nat, stages: Stages)
    requires stages.Group? && DigitsAt(s, p, stages.digits)
    requires var rest := StagesDigits(s, AfterSeparator(s, p + stages.digits, stages.sep), stages.rest);
      |rest| == DigitCount(stages.rest) && IsDigitString(rest)
    ensures |StagesDigits(s, p, stages)| == DigitCount(stages)
    ensures IsDigitString(StagesDigits(s, p, stages))
  {
    GroupDigits(s, p, stages);
    DigitRun(s, p, stages.digits);
    DigitStringsAppend(s[p..p + stages.digits], StagesDigits(s, AfterSeparator(s, p + stages.digits, stages.sep), stages.rest));
  }

  /** The text of a run of n digits. */
  lemma DigitRun(s: string, p: nat, n: nat)
    requires DigitsAt(s, p, n)
    ensures p + n <= |s| && IsDigitString(s[p..p + n])
  {
    DigitsAtEach(s, p, n);
    var r := s[p..p + n];
    assert forall j :: 0 <= j < n ==> r[j] == s[p + j];
  }

  lemma DigitStringsAppend(a: string, b: string)
    requires IsDigitString(a) && IsDigitString(b)
    ensures IsDigitString(a + b)
  {
    var c := a + b;
    assert forall j :: |a| <= j < |c| ==> c[j] == b[j - |a|];
  }

  /** Filtering what the groups matched, from p to e, leaves exactly their
      digit runs. */
  lemma {:induction false} StagesKeepDigits(s: string, p: nat, e: nat, stages: Stages)
    requires StagesEnd(s, p, stages) == Some(e) && PunctuationSeparators(stages)
    ensures KeepRange(s, p, e) == StagesDigits(s, p, stages)
    decreases stages
  {
    if stages.Group? {
      GroupStep(s, p, stages);
      StagesKeepDigits(s, AfterSeparator(s, p + stages.digits, stages.sep), e, stages.rest);
      GroupKeepsDigits(s, p, e, stages);
    }
  }

  /** Filtering one group and what follows it up to e keeps the group's
      digits in front of what the filter keeps of the rest. */
  lemma GroupKeepsDigits(s: string, p: nat, e: nat, stages: Stages)
    requires stages.Group? && (stages.sep.Some? ==> IsPunctuation(stages.sep.value))
    requires DigitsAt(s, p, stages.digits)
    requires var a := AfterSeparator(s, p + stages.digits, stages.sep);
      a <= e <= |s| && KeepRange(s, a, e) == StagesDigits(s, a, stages.rest)
    ensures KeepRange(s, p, e) == StagesDigits(s, p, stages)
  {
    StageKeepsDigits(s, p, stages.digits, stages.sep, e);
    GroupDigits(s, p, stages);
  }

  /** Whatever the layout matches, stripping its separators leaves a
      registry key: its fourteen digits, in order. */
  lemma {:induction false} LayoutStripsToKey(s: string, p: nat)
    requires LayoutEnd(s, p).Some?
    ensures StripPunctuation(s[p..LayoutEnd(s, p).value]) == StagesDigits(s, p, Layout)
    ensures IsCnpjKey(StripPunctuation(s[p..LayoutEnd(s, p).value]))
  {
    assert DigitCount(Layout) == 14;
    assert PunctuationSeparators(Layout);
    var e := LayoutEnd(s, p).value;
    StagesKeepDigits(s, p, e, Layout);
    KeepSlice(s, p, e);
    StagesDigitsShape(s, p, Layout);
    StripKeepsTheRest(s[p..e]);
  }

  /** t holds the characters of s from lo on, one by one. */
  predicate WindowOf(t: string, s: string, lo: nat) {
    lo + |t| <= |s| && forall j :: 0 <= j < |t| ==> t[j] == s[lo + j]
  }

  /** A run of digits is still there inside a window that holds it. */
  lemma {:induction false} DigitsInWindow(s: string, t: string, lo: nat, p: nat, n: nat)
    requires WindowOf(t, s, lo) && lo <= p && p + n <= lo + |t| && DigitsAt(s, p, n)
    ensures DigitsAt(t, p - lo, n)
    decreases n
  {
    if n > 0 {
      assert t[p - lo] == s[p];
      DigitsInWindow(s, t, lo, p + 1, n - 1);
    }
  }

  /** One group reads the same characters inside a window that holds them. */
  lemma {:induction false} StageInWindow(s: string, t: string, lo: nat, p: nat, n: nat, sep: Option<char>)
    requires WindowOf(t, s, lo) && lo <= p && DigitsAt(s, p, n)
    requires AfterSeparator(s, p + n, sep) <= lo + |t|
    ensures DigitsAt(t, p - lo, n)
    ensures AfterSeparator(t, p - lo + n, sep) == AfterSeparator(s, p + n, sep) - lo
  {
    DigitsInWindow(s, t, lo, p, n);
    if p + n < lo + |t| {
      assert t[p - lo + n] == s[p + n];
    }
  }

  /** The groups only look at the characters they match, so they match the
      same text inside a window that ends where they do. */
  lemma {:induction false} StagesInWindow(s: string, t: string, lo: nat, p: nat, stages: Stages)
    requires WindowOf(t, s, lo) && lo <= p && StagesEnd(s, p, stages) == Some(lo + |t|)
    ensures StagesEnd(t, p - lo, stages) == Some(|t|)
    decreases stages
  {
    if stages.Group? {
      GroupStep(s, p, stages);
      var a := AfterSeparator(s, p + stages.digits, stages.sep);
      StagesInWindow(s, t, lo, a, stages.rest);
      GroupInWindow(s, t, lo, p, stages);
    }
  }

  /** The first group reads the same inside the window, so the window
      matches from p once the rest matches from where the group ends. */
  lemma GroupInWindow(s: string, t: string, lo: nat, p: nat, stages: Stages)
    requires WindowOf(t, s, lo) && lo <= p && stages.Group? && DigitsAt(s, p, stages.digits)
    requires var a := AfterSeparator(s, p + stages.digits, stages.sep);
      a <= lo + |t| && StagesEnd(t, a - lo, stages.rest) == Some(|t|)
    ensures StagesEnd(t, p - lo, stages) == Some(|t|)
  {
    StageInWindow(s, t, lo, p, stages.digits, stages.sep);
    GroupResumes(t, p - lo, stages, AfterSeparator(s, p + stages.digits, stages.sep) - lo, |t|);
  }

  /** A group whose digits are there, followed by the rest matching up to r,
      matches up to r. */
  lemma GroupResumes(t: string, q: nat, stages: Stages, b: nat, r: nat)
    requires stages.Group? && DigitsAt(t, q, stages.digits)
    requires AfterSeparator(t, q + stages.digits, stages.sep) == b
    requires StagesEnd(t, b, stages.rest) == Some(r)
    ensures StagesEnd(t, q, stages) == Some(r)
  {
  }

  /** A slice is a window of the text it is cut from. */
  lemma SliceIsWindow(s: string, lo: nat, hi: nat)
    requires lo <= hi <= |s|
    ensures WindowOf(s[lo..hi], s, lo)
  {
  }

  /** The gap the CNPJ pattern settled on: where its layout starts. */
  lemma GapOf(s: string, p: nat, k: nat) returns (x: nat)
    requires GapThenLayout(s, p, k).Some?
    ensures p <= x <= p + k && LayoutEnd(s, x) == GapThenLayout(s, p, k)
  {
    var g :| 0 <= g <= k && LayoutGapFits(s, p, g) && GapThenLayout(s, p, k) == LayoutEnd(s, p + g)
             && forall h :: g < h <= k ==> !LayoutGapFits(s, p, h);
    x := p + g;
  }

  /** A match anywhere means the search succeeds. */
  lemma SearchFindsSome(p: Pattern, s: string, j: nat)
    requires j <= |s| && MatchAt(p, s, j).Some?
    ensures Search(p, s, 0).Some?
  {
  }

  /** A CNPJ match ends where a layout match that starts after the gap ends. */
  lemma {:induction false} CnpjEndsInLayout(s: string, i: nat) returns (x: nat)
    requires CnpjAt(s, i).Some?
    ensures i + 4 <= x <= i + 7 && LayoutEnd(s, x) == CnpjAt(s, i)
  {
    assert WordAt(s, i, CnpjWord);
    x := GapOf(s, i + 4, 3);
  }

  /** The bare number is found inside any `CNPJ...` match. */
  lemma {:induction false} NumberInCnpjMatch(s: string, i: nat)
    requires CnpjAt(s, i).Some?
    ensures Search(CnpjNumberPattern, s[i..CnpjAt(s, i).value], 0).Some?
  {
    var e := CnpjAt(s, i).value;
    var x := CnpjEndsInLayout(s, i);
    NumberInSlice(s, i, x, e);
  }

  /** A layout match from x to e is found by the search of any slice that
      starts at or before x and ends at e. */
  lemma NumberInSlice(s: string, i: nat, x: nat, e: nat)
    requires i <= x && LayoutEnd(s, x) == Some(e)
    ensures Search(CnpjNumberPattern, s[i..e], 0).Some?
  {
    LayoutInSlice(s, i, x, e);
    SearchFindsSome(CnpjNumberPattern, s[i..e], x - i);
  }

  /** The same layout match, read inside the slice. */
  lemma LayoutInSlice(s: string, i: nat, x: nat, e: nat)
    requires i <= x && LayoutEnd(s, x) == Some(e)
    ensures x - i <= |s[i..e]| && MatchAt(CnpjNumberPattern, s[i..e], x - i).Some?
  {
    SliceIsWindow(s, i, e);
    LayoutInWindow(s, s[i..e], i, x);
  }

  /** A layout match that ends where the window t ends is a match of the
      number pattern in t. */
  lemma LayoutInWindow(s: string, t: string, lo: nat, x: nat)
    requires WindowOf(t, s, lo) && lo <= x && LayoutEnd(s, x) == Some(lo + |t|)
    ensures x - lo <= |t| && MatchAt(CnpjNumberPattern, t, x - lo) == Some(|t|)
  {
    StagesInWindow(s, t, lo, x, Layout);
  }

  /** Searching the matched `CNPJ...` span for the bare number always
      succeeds: the number the outer pattern ended on is in the span. */
  lemma {:induction false} InnerSearchSucceeds(content: string)
    requires Search(CnpjPattern, content, 0).Some?
    ensures var sp := Search(CnpjPattern, content, 0).value;
      Search(CnpjNumberPattern, content[sp.start..sp.end], 0).Some?
  {
    var sp := Search(CnpjPattern, content, 0).value;
    assert CnpjAt(content, sp.start) == Some(sp.end);
    NumberInCnpjMatch(content, sp.start);
  }

  /** `number` is the leftmost layout match inside the leftmost `CNPJ...`
      match, which starts at i; the layout match starts j characters in. */
  ghost predicate StoredNumber(content: string, i: nat, j: nat, number: string) {
    && FirstMatchAt(CnpjPattern, content, i)
    && var t := content[i..MatchAt(CnpjPattern, content, i).value];
    && FirstMatchAt(CnpjNumberPattern, t, j)
    && number == t[j..MatchAt(CnpjNumberPattern, t, j).value]
  }

  /** Lines 116-120: the number text stored as `cnpj`, when the pattern matches. */
  function FindCnpj(content: string): (r: Option<string>)
    ensures r.Some? <==> Search(CnpjPattern, content, 0).Some?
    ensures r.Some? ==> 14 <= |r.value| <= 18 && IsCnpjKey(StripPunctuation(r.value))
    ensures r.Some? ==> exists i: nat, j: nat :: StoredNumber(content, i, j, r.value)
  {
    match Search(CnpjPattern, content, 0)
    case None => None
    case Some(sp) =>
      var t := content[sp.start..sp.end];
      InnerSearchSucceeds(content);
      var q := Search(CnpjNumberPattern, t, 0).value;
      LayoutStripsToKey(t, q.start);
      assert StoredNumber(content, sp.start, q.start, t[q.start..q.end]);
      Some(t[q.start..q.end])
  }

  /** The leftmost match is what the search returns. */
  lemma FirstMatchIsSearch(p: Pattern, s: string, i: nat)
    requires FirstMatchAt(p, s, i)
    ensures Search(p, s, 0) == Some(Span(i, MatchAt(p, s, i).value))
  {
    SearchFindsSome(p, s, i);
  }

  /** The number the predicate describes is the one stored: it is unique. */
  lemma StoredNumberIsFound(content: string, i: nat, j: nat, number: string)
    requires StoredNumber(content, i, j, number)
    ensures FindCnpj(content) == Some(number)
  {
    FirstMatchIsSearch(CnpjPattern, content, i);
    var t := content[i..MatchAt(CnpjPattern, content, i).value];
    FirstMatchIsSearch(CnpjNumberPattern, t, j);
  }

  const ExampleText: string := "CNPJ 12.345.678/0001-95"

  /** A group whose digits are there hands over to the next group. */
  lemma {:induction false} StagesStep(s: string, p: nat, stages: Stages)
    requires stages.Group? && DigitsAt(s, p, stages.digits)
    ensures StagesEnd(s, p, stages) == StagesEnd(s, AfterSeparator(s, p + stages.digits, stages.sep), stages.rest)
  {
  }

  /** Each group of the example number hands over to the next one. */
  lemma {:induction false} ExampleGroupAt5()
    ensures StagesEnd(ExampleText, 5, Layout) == StagesEnd(ExampleText, 8, Layout.rest)
  {
    assert DigitsAt(ExampleText, 5, 2) && ExampleText[7] == '.';
    StagesStep(ExampleText, 5, Layout);
  }

  lemma {:induction false} ExampleGroupAt8()
    ensures StagesEnd(ExampleText, 8, Layout.rest) == StagesEnd(ExampleText, 12, Layout.rest.rest)
  {
    assert DigitsAt(ExampleText, 8, 3) && ExampleText[11] == '.';
    StagesStep(ExampleText, 8, Layout.rest);
  }

  lemma {:induction false} ExampleGroupAt12()
    ensures StagesEnd(ExampleText, 12, Layout.rest.rest) == StagesEnd(ExampleText, 16, Layout.rest.rest.rest)
  {
    assert DigitsAt(ExampleText, 12, 3) && ExampleText[15] == '/';
    StagesStep(ExampleText, 12, Layout.rest.rest);
  }

  lemma {:induction false} ExampleGroupAt16()
    ensures StagesEnd(ExampleText, 16, Layout.rest.rest.rest) == StagesEnd(ExampleText, 21, Layout.rest.rest.rest.rest)
  {
    assert DigitsAt(ExampleText, 16, 4) && ExampleText[20] == '-';
    StagesStep(ExampleText, 16, Layout.rest.rest.rest);
  }

  lemma {:induction false} ExampleGroupAt21()
    ensures StagesEnd(ExampleText, 21, Layout.rest.rest.rest.rest) == Some(23)
  {
    assert DigitsAt(ExampleText, 21, 2);
    StagesStep(ExampleText, 21, Layout.rest.rest.rest.rest);
  }

  /** The layout matches the example number where it starts, and not one or
      two characters later. */
  lemma {:induction false} ExampleLayout()
    ensures LayoutEnd(ExampleText, 5) == Some(23)
    ensures LayoutEnd(ExampleText, 6).None? && LayoutEnd(ExampleText, 7).None?
  {
    var s := ExampleText;
    ExampleGroupAt5();
    ExampleGroupAt8();
    ExampleGroupAt12();
    ExampleGroupAt16();
    ExampleGroupAt21();
    assert !DigitsAt(s, 6, 2) && !DigitsAt(s, 7, 2);
  }

  lemma {:induction false} ExampleNoEarlierNumber()
    ensures forall j :: 0 <= j < 5 ==> LayoutEnd(ExampleText, j).None?
  {
    var s := ExampleText;
    forall j | 0 <= j < 5 ensures LayoutEnd(s, j).None? {
      assert !IsDigit(s[j]);
      assert !DigitsAt(s, j, 2);
    }
  }

  lemma {:induction false} ExampleLabel()
    ensures WordAt(ExampleText, 0, CnpjWord)
  {
    var s := ExampleText;
    assert FoldEq(s[0], CnpjWord[0][0]) && FoldEq(s[1], CnpjWord[1][0]);
    assert FoldEq(s[2], CnpjWord[2][0]) && FoldEq(s[3], CnpjWord[3][0]);
  }

  /** The gap settles on the one space before the number. */
  lemma {:induction false} ExampleGap()
    ensures GapThenLayout(ExampleText, 4, 3) == Some(23)
  {
    var s := ExampleText;
    ExampleLayout();
    assert DotsAt(s, 4, 3) && DotsAt(s, 4, 2) && DotsAt(s, 4, 1);
    assert GapThenLayout(s, 4, 1) == Some(23);
    assert GapThenLayout(s, 4, 2) == Some(23);
  }

  lemma {:induction false} ExampleOuterMatch()
    ensures Search(CnpjPattern, ExampleText, 0) == Some(Span(0, 23))
  {
    ExampleLabel();
    ExampleGap();
    assert MatchAt(CnpjPattern, ExampleText, 0) == Some(23);
  }

  lemma {:induction false} ExampleInnerMatch()
    ensures Search(CnpjNumberPattern, ExampleText, 0) == Some(Span(5, 23))
  {
    var s := ExampleText;
    ExampleLayout();
    ExampleNoEarlierNumber();
    assert MatchAt(CnpjNumberPattern, s, 5) == Some(23);
    assert Search(CnpjNumberPattern, s, 5) == Some(Span(5, 23));
    assert Search(CnpjNumberPattern, s, 4) == Some(Span(5, 23));
    assert Search(CnpjNumberPattern, s, 3) == Some(Span(5, 23));
    assert Search(CnpjNumberPattern, s, 2) == Some(Span(5, 23));
    assert Search(CnpjNumberPattern, s, 1) == Some(Span(5, 23));
  }

  /** The number behind the `CNPJ` label is found where it stands. */
  lemma {:induction false} CnpjFound()
    ensures FindCnpj(ExampleText) == Some(ExampleText[5..23])
  {
    var s := ExampleText;
    ExampleOuterMatch();
    assert s[0..23] == s;
    ExampleInnerMatch();
  }

  lemma {:induction false} ExampleNumberText()
    ensures ExampleText[5..23] == "12.345.678/0001-95"
  {
  }

  /** The number is stored with its punctuation. */
  lemma {:induction false} CnpjExample()
    ensures FindCnpj(ExampleText) == Some("12.345.678/0001-95")
  {
    CnpjFound();
    ExampleNumberText();
  }

  // ---------------------------------------------------------------------
  // The example inside a longer text

  /** The groups' separators only look inside the window: the last group
      has none, and every later group has digits that must be there. */
  predicate Closed(stages: Stages)
    decreases stages
  {
    stages.Done? ||
    ((stages.rest.Done? ==> stages.sep.None?) && (stages.rest.Group? ==> stages.rest.digits > 0) && Closed(stages.rest))
  }

  /** A run of digits inside the window is there in the whole text. */
  lemma {:induction false} DigitsFromWindow(s: string, t: string, lo: nat, q: nat, n: nat)
    requires WindowOf(t, s, lo) && DigitsAt(t, q, n)
    ensures DigitsAt(s, lo + q, n)
    decreases n
  {
    if n > 0 {
      assert s[lo + q] == t[q];
      DigitsFromWindow(s, t, lo, q + 1, n - 1);
    }
  }

  /** One group read inside the window reads the same in the whole text,
      as long as its separator, if it has one, is looked for inside. */
  lemma GroupFromWindow(s: string, t: string, lo: nat, q: nat, stages: Stages)
    requires WindowOf(t, s, lo) && stages.Group? && DigitsAt(t, q, stages.digits)
    requires q + stages.digits < |t| || stages.sep.None?
    ensures DigitsAt(s, lo + q, stages.digits)
    ensures AfterSeparator(s, lo + q + stages.digits, stages.sep) == lo + AfterSeparator(t, q + stages.digits, stages.sep)
  {
    DigitsFromWindow(s, t, lo, q, stages.digits);
    if q + stages.digits < |t| {
      assert s[lo + q + stages.digits] == t[q + stages.digits];
    }
  }

  /** Closed groups that match inside the window match the same way in the
      whole text. */
  lemma {:induction false} StagesFromWindow(s: string, t: string, lo: nat, q: nat, stages: Stages)
    requires WindowOf(t, s, lo) && Closed(stages) && StagesEnd(t, q, stages).Some?
    ensures StagesEnd(s, lo + q, stages) == Some(lo + StagesEnd(t, q, stages).value)
    decreases stages
  {
    if stages.Group? {
      var a := AfterSeparator(t, q + stages.digits, stages.sep);
      assert q + stages.digits < |t| || stages.sep.None?;
      GroupFromWindow(s, t, lo, q, stages);
      StagesFromWindow(s, t, lo, a, stages.rest);
      GroupResumes(s, lo + q, stages, lo + a, lo + StagesEnd(t, q, stages).value);
    }
  }

  /** A layout match inside the window is one in the whole text. */
  lemma LayoutFromWindow(s: string, t: string, lo: nat, q: nat)
    requires WindowOf(t, s, lo) && LayoutEnd(t, q).Some?
    ensures LayoutEnd(s, lo + q) == Some(lo + LayoutEnd(t, q).value)
  {
    assert Closed(Layout);
    StagesFromWindow(s, t, lo, q, Layout);
  }

  /** A word match inside the window is one in the whole text. */
  lemma WordFromWindow(s: string, t: string, lo: nat, q: nat, w: Word)
    requires WindowOf(t, s, lo) && WordAt(t, q, w)
    ensures WordAt(s, lo + q, w)
  {
    forall j | 0 <= j < |w| ensures ClassMatch(s[lo + q + j], w[j]) {
      assert s[lo + q + j] == t[q + j];
    }
  }

  /** A gap inside the window is one in the whole text. */
  lemma DotsFromWindow(s: string, t: string, lo: nat, q: nat, k: nat)
    requires WindowOf(t, s, lo) && DotsAt(t, q, k)
    ensures DotsAt(s, lo + q, k)
  {
    forall j | lo + q <= j < lo + q + k ensures IsDot(s[j]) {
      assert s[j] == t[j - lo];
    }
  }

  /** Wherever the example stands in a text, the `CNPJ...` pattern matches
      it from its label to the end of its number. */
  lemma ExampleOuterIn(s: string, lo: nat)
    requires WindowOf(ExampleText, s, lo)
    ensures CnpjAt(s, lo) == Some(lo + 23)
  {
    ExampleLabel();
    ExampleLayout();
    ExampleSeparators();
    LabelledNumberIn(s, ExampleText, lo);
  }

  /** A window that reads `CNPJ`, one gap character and a layout match
      that starts right before a '.' is matched the same way in the whole text. */
  lemma LabelledNumberIn(s: string, t: string, lo: nat)
    requires WindowOf(t, s, lo) && WordAt(t, 0, CnpjWord) && LayoutEnd(t, 5) == Some(23)
    requires 7 < |t| && t[4] == ' ' && t[7] == '.'
    ensures CnpjAt(s, lo) == Some(lo + 23)
  {
    WordFromWindow(s, t, lo, 0, CnpjWord);
    LayoutFromWindow(s, t, lo, 5);
    assert s[lo + 4] == t[4] && s[lo + 7] == t[7];
    NoLayoutBeforeDot(s, lo + 7);
    GapSettles(s, lo + 4, lo + 23);
  }

  /** No layout starts at a '.' or right before it. */
  lemma NoLayoutBeforeDot(s: string, p: nat)
    requires 1 <= p < |s| && s[p] == '.'
    ensures LayoutEnd(s, p).None? && LayoutEnd(s, p - 1).None?
  {
    assert !DigitsAt(s, p, 2) && !DigitsAt(s, p - 1, 2);
  }

  /** A one-character gap settles when the longer two find no layout. */
  lemma GapSettles(s: string, p: nat, e: nat)
    requires p < |s| && s[p] != '\n' && LayoutEnd(s, p + 1) == Some(e)
    requires LayoutEnd(s, p + 2).None? && LayoutEnd(s, p + 3).None?
    ensures GapThenLayout(s, p, 3) == Some(e)
  {
    assert DotsAt(s, p, 1);
  }

  /** The example number is what is stored for any text that holds the
      example and has no `CNPJ...` match starting before it. */
  lemma {:induction false} ExampleInContext(pre: string, post: string)
    requires forall j :: 0 <= j < |pre| ==> CnpjAt(pre + ExampleText + post, j).None?
    ensures FindCnpj(pre + ExampleText + post) == Some("12.345.678/0001-95")
  {
    var c := pre + ExampleText + post;
    var lo := |pre|;
    assert WindowOf(ExampleText, c, lo) by {
      assert forall j :: 0 <= j < |ExampleText| ==> c[lo + j] == ExampleText[j];
    }
    ExampleOuterIn(c, lo);
    assert FirstMatchAt(CnpjPattern, c, lo);
    var t := c[lo..lo + 23];
    assert t == ExampleText;
    ExampleInnerMatch();
    assert FirstMatchAt(CnpjNumberPattern, t, 5);
    ExampleNumberText();
    assert StoredNumber(c, lo, 5, "12.345.678/0001-95");
    StoredNumberIsFound(c, lo, 5, "12.345.678/0001-95");
  }

  /** The digit runs of the example number, group by group. */
  lemma {:induction false} ExampleDigits()
    ensures StagesDigits(ExampleText, 5, Layout)
      == ExampleText[5..7] + (ExampleText[8..11] + (ExampleText[12..15] + (ExampleText[16..20] + ExampleText[21..23])))
  {
    var s := ExampleText;
    ExampleSeparators();
    GroupDigitsUpTo(s, 21, Layout.rest.rest.rest.rest, 23);
    GroupDigitsUpTo(s, 16, Layout.rest.rest.rest, 21);
    GroupDigitsUpTo(s, 12, Layout.rest.rest, 16);
    GroupDigitsUpTo(s, 8, Layout.rest, 12);
    GroupDigitsUpTo(s, 5, Layout, 8);
    assert s[21..23] + [] == s[21..23];
  }

  /** Where the separators of the example number are. */
  lemma {:induction false} ExampleSeparators()
    ensures |ExampleText| == 23
    ensures ExampleText[7] == '.' && ExampleText[11] == '.' && ExampleText[15] == '/' && ExampleText[20] == '-'
    ensures ExampleText[4] == ' '
  {
  }

  /** The digit runs of a group whose separator step ends at a. */
  lemma GroupDigitsUpTo(s: string, p: nat, stages: Stages, a: nat)
    requires stages.Group? && p + stages.digits <= |s| && AfterSeparator(s, p + stages.digits, stages.sep) == a
    ensures StagesDigits(s, p, stages) == s[p..p + stages.digits] + StagesDigits(s, a, stages.rest)
  {
  }

  /** The five digit groups of the example number, as text. */
  lemma {:induction false} ExampleGroups()
    ensures ExampleText[5..7] == "12" && ExampleText[8..11] == "345" && ExampleText[12..15] == "678"
    ensures ExampleText[16..20] == "0001" && ExampleText[21..23] == "95"
  {
    var s := ExampleText;
    assert s[5] == '1' && s[6] == '2';
    assert s[8] == '3' && s[9] == '4' && s[10] == '5';
    assert s[12] == '6' && s[13] == '7' && s[14] == '8';
    assert s[16] == '0' && s[17] == '0' && s[18] == '0' && s[19] == '1';
    assert s[21] == '9' && s[22] == '5';
  }

  lemma {:induction false} ExampleDigitText()
    ensures ExampleText[5..7] + (ExampleText[8..11] + (ExampleText[12..15] + (ExampleText[16..20] + ExampleText[21..23])))
      == "12345678000195"
  {
    ExampleGroups();
    assert "0001" + "95" == "000195";
    assert "678" + "000195" == "678000195";
    assert "345" + "678000195" == "345678000195";
    assert "12" + "345678000195" == "12345678000195";
  }

  /** ... and stripping it gives the fourteen-digit registry key. */
  lemma {:induction false} KeyExample()
    ensures StripPunctuation(ExampleText[5..23]) == "12345678000195"
  {
    ExampleLayout();
    LayoutStripsToKey(ExampleText, 5);
    ExampleDigits();
    ExampleDigitText();
  }
}
