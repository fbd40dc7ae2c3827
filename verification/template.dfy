/** The template expander applied to clipboard shortcuts: `{{name}}` and
    `{{name:argument}}` tokens are replaced, one kind of token after the
    other, by dates, user and machine names, the clipboard text, fresh
    GUIDs, environment variables, answers typed into a prompt and random
    numbers. Everything the expander asks the operating system for is an
    oracle field of `Oracles`. */
module Templates {
  import opened Wrappers
  import opened Text
  import opened Profiles

  // ---------------------------------------------------------------------
  // The environment
  // ---------------------------------------------------------------------

  /** What reading the clipboard gives: an exception, no text, or a text. */
  datatype ClipboardState = ClipboardFails | NoText | HasText(text: string)

  /** The answers of the operating system during one expansion. The model
      reads the clock as one instant, where the source reads `DateTime.Now`
      afresh in every pass and for every date or time token.
      `formatNow(f)` is `DateTime.Now.ToString(f)`, `None` when `f` is not
      a valid format; `environment(n)` is `None` for an unset variable;
      `input(k, prompt)` is the k-th prompt's answer, `None` when the user
      cancelled; `randomDraw(k)` is the k-th draw of a fresh `Random`. */
  datatype Oracles = Oracles(
    dateText: string,
    timeText: string,
    dateTimeText: string,
    formatNow: string -> Option<string>,
    dayOfWeek: DayOfWeek,
    year: int,
    month: int,
    day: int,
    userName: string,
    machineName: string,
    userDomainName: string,
    clipboard: ClipboardState,
    guid: string,
    guidN: string,
    guidD: string,
    environment: string -> Option<string>,
    input: (nat, string) -> Option<string>,
    randomDraw: nat -> nat)

  /** Why an expansion throws. */
  datatype TemplateError = BadDateFormat | RandomRangeOutOfOrder

  /** `DayOfWeek.ToString()`. */
  function DayName(d: DayOfWeek): (r: string)
    ensures |r| >= 6 && r[|r| - 3..] == "day"
  {
    match d
    case Sunday => "Sunday"
    case Monday => "Monday"
    case Tuesday => "Tuesday"
    case Wednesday => "Wednesday"
    case Thursday => "Thursday"
    case Friday => "Friday"
    case Saturday => "Saturday"
  }

  // ---------------------------------------------------------------------
  // Token patterns
  // ---------------------------------------------------------------------

  const RandomHead: string := "{{random:"

  /** The three shapes of pattern: a fixed token `{{name}}`, a token with a
      free argument `{{name:arg}}` (the argument a non-empty run without
      `}`), and `{{random:digits:digits}}`. */
  datatype Pattern = Literal(token: string) | Argument(head: string) | RandomRange

  /** The lower-case text a match must begin with. */
  function Head(p: Pattern): string {
    match p
    case Literal(t) => t
    case Argument(h) => h
    case RandomRange => RandomHead
  }

  /** Every pattern of the expander opens with `{{` and names its token. */
  predicate WellFormed(p: Pattern) {
    |Head(p)| >= 3 && Head(p)[0] == '{' && Head(p)[1] == '{'
  }

  /** `s[i..]` begins with `head`, letters compared without case. */
  predicate HeadAt(s: string, i: nat, head: string) {
    i + |head| <= |s| && Lower(s[i..i + |head|]) == head
  }

  /** `}}` at offset `j`. */
  predicate ClosesAt(s: string, j: nat) {
    j + 2 <= |s| && s[j] == '}' && s[j + 1] == '}'
  }

  predicate NotBrace(c: char) {
    c != '}'
  }

  /** The end of the longest run of characters satisfying `ok` from `i`. */
  function SkipWhile(s: string, i: nat, ok: char -> bool): (j: nat)
    requires i <= |s|
    ensures i <= j <= |s|
    ensures forall k :: i <= k < j ==> ok(s[k])
    ensures j < |s| ==> !ok(s[j])
    decreases |s| - i
  {
    if i == |s| || !ok(s[i]) then i else SkipWhile(s, i + 1, ok)
  }

  /** A match: where it ends and its captured groups. */
  datatype Found = Found(end: nat, arg1: string, arg2: string)

  /** The rest of an argument token from offset `a`: a non-empty run
      without `}`, then `}}`. */
  function MatchArgument(s: string, a: nat): (r: Option<Found>)
    requires a <= |s|
    ensures r.Some? ==>
              |r.value.arg1| > 0 && r.value.end == a + |r.value.arg1| + 2 <= |s| &&
              r.value.arg1 == s[a..r.value.end - 2] &&
              (forall k :: 0 <= k < |r.value.arg1| ==> r.value.arg1[k] != '}') &&
              ClosesAt(s, r.value.end - 2)
  {
    var j := SkipWhile(s, a, NotBrace);
    if a < j && ClosesAt(s, j) then Some(Found(j + 2, s[a..j], "")) else None
  }

  /** The rest of a random-number token from offset `a`: digits, `:`,
      digits, then `}}`. */
  function MatchRange(s: string, a: nat): (r: Option<Found>)
    requires a <= |s|
    ensures r.Some? ==>
              a < r.value.end <= |s| &&
              |r.value.arg1| > 0 && AllDigits(r.value.arg1) &&
              |r.value.arg2| > 0 && AllDigits(r.value.arg2)
  {
    var j := SkipWhile(s, a, IsDigit);
    if a < j && j < |s| && s[j] == ':' then
      var k := SkipWhile(s, j + 1, IsDigit);
      if j + 1 < k && ClosesAt(s, k) then Some(Found(k + 2, s[a..j], s[j + 1..k])) else None
    else None
  }

  /** The match of `p` starting at offset `i`, if any. The regular
      expressions' greedy runs cannot backtrack usefully (a shorter run of
      non-`}` characters or of digits is followed by a character that cannot
      start the rest), so the longest run decides. */
  function MatchAt(s: string, i: nat, p: Pattern): (r: Option<Found>)
    requires i <= |s|
    ensures r.Some? ==> i < r.value.end <= |s| && HeadAt(s, i, Head(p))
    ensures r.Some? && p.Literal? ==> r.value.end == i + |p.token|
  {
    if !HeadAt(s, i, Head(p)) then None
    else
      match p
      case Literal(t) => if |t| > 0 then Some(Found(i + |t|, "", "")) else None
      case Argument(h) => MatchArgument(s, i + |h|)
      case RandomRange => MatchRange(s, i + |RandomHead|)
  }

  // ---------------------------------------------------------------------
  // Replacement values
  // ---------------------------------------------------------------------

  /** How a match is replaced. `Verbatim(v)` inserts `v`; `Substituted(v)`
      inserts `v` read as a .NET replacement pattern (the string overload of
      `Regex.Replace`). `RandomNext(wrapping)` computes `max + 1` in 32 bits
      when `wrapping` holds and exactly otherwise. */
  datatype Evaluator =
    | Verbatim(value: string)
    | Substituted(value: string)
    | FormatNow
    | EnvLookup
    | Prompt
    | RandomNext(wrapping: bool)

  /** A .NET replacement pattern expanded for one match: `$$` stands for
      `$` and `$&` for the matched text; other characters stand for
      themselves. */
  function Expand(rep: string, matched: string): (r: string)
    ensures '$' !in rep ==> r == rep
    decreases |rep|
  {
    if |rep| == 0 then ""
    else if |rep| >= 2 && rep[0] == '$' && rep[1] == '$' then "$" + Expand(rep[2..], matched)
    else if |rep| >= 2 && rep[0] == '$' && rep[1] == '&' then matched + Expand(rep[2..], matched)
    else [rep[0]] + Expand(rep[1..], matched)
  }

  /** `int.TryParse` on a non-empty run of ASCII digits. */
  function ParseDigits(s: string): (r: Option<Int32>)
    ensures r.Some? ==> AllDigits(s) && r.value == DigitsValue(s)
    ensures AllDigits(s) && DigitsValue(s) <= IntMax ==> r.Some?
  {
    if AllDigits(s) then TryParseInt32(s) else None
  }

  /** `new Random().Next(lo, hi)` after `draw`: `lo` when the bounds are
      equal, otherwise a value at least `lo` and below `hi`. */
  function Next(lo: int, hi: int, draw: nat): (r: int)
    requires lo <= hi
    ensures lo <= r && (lo < hi ==> r < hi) && (lo == hi ==> r == lo)
  {
    if lo == hi then lo else lo + draw % (hi - lo)
  }

  /** The value of `{{random:a:b}}`. */
  function RandomValue(a: string, b: string, matched: string, draw: nat, wrapping: bool)
    : (r: Result<string, TemplateError>)
  {
    match (ParseDigits(a), ParseDigits(b))
    case (Some(min), Some(max)) =>
      var hi: int := if wrapping then Wrap32(max as int + 1) else max as int + 1;
      if min > hi then Failure(RandomRangeOutOfOrder)
      else Success(IntToString(Next(min, hi, draw)))
    case _ => Success(matched)
  }

  /** The replacement of the `k`-th match `f` (text `matched`) of a pass. */
  function Evaluate(ev: Evaluator, o: Oracles, matched: string, f: Found, k: nat)
    : (r: Result<string, TemplateError>)
  {
    match ev
    case Verbatim(v) => Success(v)
    case Substituted(v) => Success(Expand(v, matched))
    case FormatNow =>
      (match o.formatNow(f.arg1)
       case Some(t) => Success(t)
       case None => Failure(BadDateFormat))
    case EnvLookup => Success(o.environment(f.arg1).GetOr(matched))
    case Prompt => Success(o.input(k, f.arg1).GetOr(""))
    case RandomNext(w) => RandomValue(f.arg1, f.arg2, matched, o.randomDraw(k), w)
  }

  // ---------------------------------------------------------------------
  // One replacement pass
  // ---------------------------------------------------------------------

  /** `Regex.Replace` of `p` over `s[i..]`, scanning left to right: a match
      is replaced and the scan resumes after it; elsewhere one character is
      kept. The first replacement that throws ends the pass. `k` counts the
      matches already replaced. */
  function Pass(s: string, p: Pattern, ev: Evaluator, o: Oracles, i: nat, k: nat)
    : (r: Result<string, TemplateError>)
    requires i <= |s|
    decreases |s| - i
  {
    if i == |s| then Success("")
    else match MatchAt(s, i, p)
      case Some(f) =>
        (match Evaluate(ev, o, s[i..f.end], f, k)
         case Failure(e) => Failure(e)
         case Success(v) =>
           (match Pass(s, p, ev, o, f.end, k + 1)
            case Failure(e) => Failure(e)
            case Success(rest) => Success(v + rest)))
      case None =>
        (match Pass(s, p, ev, o, i + 1, k)
         case Failure(e) => Failure(e)
         case Success(rest) => Success([s[i]] + rest))
  }

  /** One step of the expander: a replacement pass, or nothing. */
  datatype Step = Replace(pattern: Pattern, evaluator: Evaluator) | Skip

  function Apply(s: string, step: Step, o: Oracles): (r: Result<string, TemplateError>) {
    match step
    case Skip => Success(s)
    case Replace(p, ev) => Pass(s, p, ev, o, 0, 0)
  }

  /** A fixed token replaced by a fixed value. */
  function Fixed(token: string, value: string, asWritten: bool): (r: Step)
    ensures r.Replace? && r.pattern == Literal(token)
  {
    Replace(Literal(token), if asWritten then Substituted(value) else Verbatim(value))
  }

  /** The clipboard step: it runs only when the clipboard holds text; when
      reading the clipboard throws, the token is left in place. */
  function ClipboardStep(c: ClipboardState, asWritten: bool): (r: Step)
    ensures r.Replace? <==> c.HasText?
  {
    match c
    case HasText(t) => Fixed(ClipboardToken, t, asWritten)
    case _ => Skip
  }

  /** The expander's `n`-th pass. */
  function StepAt(o: Oracles, asWritten: bool, n: nat): (r: Step)
    requires n < 20
    ensures n != 13 ==> r.Replace?
    ensures r.Replace? ==> Head(r.pattern) == StepHead(n)
  {
    match n
    case 0 => Fixed(StepHead(0), o.dateText, asWritten)
    case 1 => Replace(Argument(StepHead(1)), FormatNow)
    case 2 => Fixed(StepHead(2), o.timeText, asWritten)
    case 3 => Replace(Argument(StepHead(3)), FormatNow)
    case 4 => Fixed(StepHead(4), o.dateTimeText, asWritten)
    case 5 => Replace(Argument(StepHead(5)), FormatNow)
    case 6 => Fixed(StepHead(6), DayName(o.dayOfWeek), asWritten)
    case 7 => Fixed(StepHead(7), IntToString(o.year), asWritten)
    case 8 => Fixed(StepHead(8), IntToString(o.month), asWritten)
    case 9 => Fixed(StepHead(9), IntToString(o.day), asWritten)
    case 10 => Fixed(StepHead(10), o.userName, asWritten)
    case 11 => Fixed(StepHead(11), o.machineName, asWritten)
    case 12 => Fixed(StepHead(12), o.userDomainName, asWritten)
    case 13 => ClipboardStep(o.clipboard, asWritten)
    case 14 => Fixed(StepHead(14), o.guid, asWritten)
    case 15 => Fixed(StepHead(15), o.guidN, asWritten)
    case 16 => Fixed(StepHead(16), o.guidD, asWritten)
    case 17 => Replace(Argument(StepHead(17)), EnvLookup)
    case 18 => Replace(Argument(StepHead(18)), Prompt)
    case _ => Replace(RandomRange, RandomNext(asWritten))
  }

  /** The expander's passes, in order. */
  function Steps(o: Oracles, asWritten: bool): (r: seq<Step>)
    ensures |r| == 20
    ensures forall n :: 0 <= n < 20 ==> r[n] == StepAt(o, asWritten, n)
  {
    seq(20, n requires 0 <= n < 20 => StepAt(o, asWritten, n))
  }

  /** The steps applied one after the other; the first failure ends it. */
  function Run(s: string, steps: seq<Step>, o: Oracles): (r: Result<string, TemplateError>)
    decreases |steps|
  {
    if |steps| == 0 then Success(s)
    else match Apply(s, steps[0], o)
      case Failure(e) => Failure(e)
      case Success(t) => Run(t, steps[1..], o)
  }

  function ProcessTemplateWith(template: string, o: Oracles, asWritten: bool)
    : (r: Result<string, TemplateError>)
    ensures IsBlank(template) ==> r == Success(template)
  {
    if IsBlank(template) then Success(template) else Run(template, Steps(o, asWritten), o)
  }

  /** `TemplateProcessor.ProcessTemplate`, with replacement values inserted
      as they are and `{{random:a:b}}` drawing from `a..b` for every `b`. */
  function ProcessTemplate(template: string, o: Oracles): (r: Result<string, TemplateError>)
    ensures IsBlank(template) ==> r == Success(template)
  {
    ProcessTemplateWith(template, o, false)
  }

  /** `TemplateProcessor.ProcessTemplate` as the code behaves: fixed values
      are read as replacement patterns and `max + 1` wraps. */
  function ProcessTemplateAsWritten(template: string, o: Oracles)
    : (r: Result<string, TemplateError>)
    ensures IsBlank(template) ==> r == Success(template)
  {
    ProcessTemplateWith(template, o, true)
  }

  // ---------------------------------------------------------------------
  // Matching facts
  // ---------------------------------------------------------------------

  /** A match spells its pattern's head, letters compared without case. */
  lemma MatchShowsHead(s: string, j: nat, p: Pattern)
    requires j <= |s| && MatchAt(s, j, p).Some?
    ensures j + |Head(p)| <= |s|
    ensures forall k :: 0 <= k < |Head(p)| ==> LowerChar(s[j + k]) == Head(p)[k]
  {
    var h := Head(p);
    forall k | 0 <= k < |h|
      ensures LowerChar(s[j + k]) == h[k]
    {
      assert Lower(s[j..j + |h|])[k] == LowerChar(s[j + k]);
    }
  }

  /** One character that differs from the head rules a match out. */
  lemma NoMatchOnMismatch(s: string, j: nat, p: Pattern, k: nat)
    requires j <= |s| && k < |Head(p)|
    requires j + k < |s| ==> LowerChar(s[j + k]) != Head(p)[k]
    ensures MatchAt(s, j, p).None?
  {
    var h := Head(p);
    if j + |h| <= |s| {
      assert Lower(s[j..j + |h|])[k] == LowerChar(s[j + k]);
    }
  }

  /** A match of a well-formed pattern starts at a `{{`. */
  lemma MatchNeedsBraces(s: string, j: nat, p: Pattern)
    requires j <= |s| && WellFormed(p)
    ensures MatchAt(s, j, p).Some? ==> OccursAt(s, "{{", j)
  {
    if j + 2 <= |s| && !OccursAt(s, "{{", j) {
      if s[j] != '{' {
        NoMatchOnMismatch(s, j, p, 0);
      } else {
        assert s[j + 1] != '{' by {
          assert s[j..j + 2] != ['{', '{'];
        }
        NoMatchOnMismatch(s, j, p, 1);
      }
    } else if j + 2 > |s| {
      NoMatchOnMismatch(s, j, p, 2);
    }
  }

  /** A pass whose pattern matches nowhere leaves the text alone. */
  lemma {:induction false} PassWithoutMatch(s: string, p: Pattern, ev: Evaluator, o: Oracles, i: nat, k: nat)
    requires i <= |s|
    requires forall j :: i <= j < |s| ==> MatchAt(s, j, p).None?
    ensures Pass(s, p, ev, o, i, k) == Success(s[i..])
    decreases |s| - i
  {
    if i < |s| {
      PassWithoutMatch(s, p, ev, o, i + 1, k);
      assert s[i..] == [s[i]] + s[i + 1..];
    }
  }

  /** `s` is left alone by `step`. */
  predicate Inert(s: string, step: Step) {
    step.Replace? ==> forall j :: 0 <= j < |s| ==> MatchAt(s, j, step.pattern).None?
  }

  /** Steps that find nothing to replace leave the text alone. */
  lemma {:induction false} RunInert(s: string, steps: seq<Step>, o: Oracles)
    requires forall n :: 0 <= n < |steps| ==> Inert(s, steps[n])
    ensures Run(s, steps, o) == Success(s)
    decreases |steps|
  {
    if |steps| > 0 {
      if steps[0].Replace? {
        PassWithoutMatch(s, steps[0].pattern, steps[0].evaluator, o, 0, 0);
      }
      RunInert(s, steps[1..], o);
    }
  }

  /** Running two lists of steps is running their concatenation. */
  lemma {:induction false} RunAppend(s: string, a: seq<Step>, b: seq<Step>, o: Oracles)
    ensures Run(s, a + b, o) ==
              match Run(s, a, o)
              case Failure(e) => Failure(e)
              case Success(t) => Run(t, b, o)
    decreases |a|
  {
    if |a| == 0 {
      assert a + b == b;
    } else {
      assert (a + b)[1..] == a[1..] + b;
      match Apply(s, a[0], o)
      case Failure(_) =>
      case Success(t) => RunAppend(t, a[1..], b, o);
    }
  }

  /** The head of the token the expander's `n`-th pass looks for. */
  function StepHead(n: nat): string
    requires n < 20
  {
    match n
    case 0 => "{{date}}"
    case 1 => "{{date:"
    case 2 => "{{time}}"
    case 3 => "{{time:"
    case 4 => "{{datetime}}"
    case 5 => "{{datetime:"
    case 6 => "{{dayofweek}}"
    case 7 => "{{year}}"
    case 8 => "{{month}}"
    case 9 => "{{day}}"
    case 10 => UserNameToken
    case 11 => "{{computername}}"
    case 12 => "{{userdomain}}"
    case 13 => ClipboardToken
    case 14 => GuidToken
    case 15 => "{{guid:n}}"
    case 16 => "{{guid:d}}"
    case 17 => EnvHead
    case 18 => InputHead
    case _ => RandomHead
  }

  /** The first (`k == 2`) and second (`k == 3`) letters of the token
      names, pass by pass. */
  function StepLetters(k: nat): (r: string)
    requires 2 <= k <= 3
    ensures |r| == 20
  {
    if k == 2 then "ddttdddymducucgggeir" else "aaiiaaaeoasosluuunna"
  }

  /** The first letters of the token names. */
  const TokenInitials: string := StepLetters(2)

  /** Every head opens with `{{` followed by a name of at least two
      letters, as listed in `StepLetters`. */
  lemma StepHeadShape(n: nat, k: nat)
    requires n < 20 && 2 <= k <= 3
    ensures |StepHead(n)| > 3 && StepHead(n)[0] == '{' && StepHead(n)[1] == '{'
    ensures StepHead(n)[k] == StepLetters(k)[n]
  {
    var initials, seconds := StepLetters(2), StepLetters(3);
    if n < 10 {
      DateHeadsShape(n, initials, seconds);
    } else {
      OtherHeadsShape(n, initials, seconds);
    }
  }

  lemma DateHeadsShape(n: nat, initials: string, seconds: string)
    requires n < 10
    requires initials == "ddttdddymducucgggeir" && seconds == "aaiiaaaeoasosluuunna"
    ensures |StepHead(n)| > 3 && StepHead(n)[0] == '{' && StepHead(n)[1] == '{'
    ensures StepHead(n)[2] == initials[n] && StepHead(n)[3] == seconds[n]
  {
    match n
    case 0 => case 1 => case 2 => case 3 => case 4 =>
    case 5 => case 6 => case 7 => case 8 => case _ =>
  }

  lemma OtherHeadsShape(n: nat, initials: string, seconds: string)
    requires 10 <= n < 20
    requires initials == "ddttdddymducucgggeir" && seconds == "aaiiaaaeoasosluuunna"
    ensures |StepHead(n)| > 3 && StepHead(n)[0] == '{' && StepHead(n)[1] == '{'
    ensures StepHead(n)[2] == initials[n] && StepHead(n)[3] == seconds[n]
  {
    match n
    case 10 => case 11 => case 12 => case 13 => case 14 =>
    case 15 => case 16 => case 17 => case 18 => case _ =>
  }

  /** Pass `n` looks for the token `StepHead(n)`, well formed. */
  lemma StepWellFormed(o: Oracles, w: bool, n: nat)
    requires n < 20
    ensures Steps(o, w)[n].Replace? ==>
              Head(Steps(o, w)[n].pattern) == StepHead(n) && WellFormed(Steps(o, w)[n].pattern)
  {
    StepHeadShape(n, 2);
    assert StepHead(n)[..2] == "{{";
    assert Steps(o, w)[n] == StepAt(o, w, n);
  }

  /** Every pass of the expander looks for a well-formed token whose name
      starts with one of `TokenInitials`. */
  lemma StepsWellFormed(o: Oracles, w: bool)
    ensures forall n :: 0 <= n < |Steps(o, w)| && Steps(o, w)[n].Replace? ==>
              WellFormed(Steps(o, w)[n].pattern) && Head(Steps(o, w)[n].pattern)[2] in TokenInitials
  {
    var st := Steps(o, w);
    forall n | 0 <= n < |st| && st[n].Replace?
      ensures WellFormed(st[n].pattern) && Head(st[n].pattern)[2] in TokenInitials
    {
      StepWellFormed(o, w, n);
      StepHeadShape(n, 2);
    }
  }

  /** No pass's head occurs anywhere in `t`, letters compared without
      case: a `{{` may open any other name, such as `{{today}}`, `{{user}}`
      or `{{guidx}}`. */
  predicate NoKnownToken(t: string) {
    forall j: nat, n: nat :: n < 20 && j <= |t| ==> !HeadAt(t, j, StepHead(n))
  }

  /** A template in which no pass's token occurs comes back unchanged:
      unknown tokens are left in place. */
  lemma UnknownTokensUnchanged(t: string, o: Oracles, w: bool)
    requires NoKnownToken(t)
    ensures ProcessTemplateWith(t, o, w) == Success(t)
  {
    var st := Steps(o, w);
    forall n | 0 <= n < |st|
      ensures Inert(t, st[n])
    {
      if st[n].Replace? {
        StepWellFormed(o, w, n);
        forall j | 0 <= j < |t|
          ensures MatchAt(t, j, st[n].pattern).None?
        {
          assert !HeadAt(t, j, StepHead(n));
        }
      }
    }
    if !IsBlank(t) {
      RunInert(t, st, o);
    }
  }

  /** No `{{` of `t` is followed by the first letter of a token name. */
  predicate NoTokenStarts(t: string) {
    forall j :: 0 <= j && j + 2 < |t| && OccursAt(t, "{{", j) ==> LowerChar(t[j + 2]) !in TokenInitials
  }

  /** A head can only be found where `t` has `{{`, followed by the first
      two letters of its name. */
  lemma HeadNeedsBraces(t: string, j: nat, n: nat)
    requires n < 20
    ensures HeadAt(t, j, StepHead(n)) ==>
              OccursAt(t, "{{", j) && j + 3 < |t| &&
              LowerChar(t[j + 2]) == StepLetters(2)[n] && LowerChar(t[j + 3]) == StepLetters(3)[n]
  {
    var h := StepHead(n);
    StepHeadShape(n, 2);
    StepHeadShape(n, 3);
    if HeadAt(t, j, h) {
      var l := Lower(t[j..j + |h|]);
      assert l[0] == LowerChar(t[j]) && l[1] == LowerChar(t[j + 1]);
      assert l[2] == LowerChar(t[j + 2]) && l[3] == LowerChar(t[j + 3]);
      assert t[j..j + 2] == [t[j], t[j + 1]];
    }
  }

  /** Every head opens with `{{` and a token initial, so a text without
      such a start holds no token. */
  lemma NoTokenStartsHasNoKnownToken(t: string)
    requires NoTokenStarts(t)
    ensures NoKnownToken(t)
  {
    forall j: nat, n: nat | n < 20 && j <= |t|
      ensures !HeadAt(t, j, StepHead(n))
    {
      HeadNeedsBraces(t, j, n);
      assert StepLetters(2)[n] in TokenInitials;
    }
  }

  /** The names starting "to" and "us": none, and the two user tokens,
      whose heads are longer than `{{user}}`. */
  lemma HeadLetters(n: nat)
    requires n < 20
    ensures StepLetters(2)[n] == 't' ==> StepLetters(3)[n] == 'i'
    ensures StepLetters(2)[n] == 'u' && StepLetters(3)[n] == 's' ==> |StepHead(n)| > 8
  {
    match n
    case 0 => case 1 => case 2 => case 3 => case 4 =>
    case 5 => case 6 => case 7 => case 8 => case 9 =>
    case 10 => case 11 => case 12 => case 13 => case 14 =>
    case 15 => case 16 => case 17 => case 18 => case _ =>
  }

  /** Where `{{today}} {{user}}` has `{{`. */
  lemma LookalikeBraces(t: string)
    requires t == "{{today}}" + " " + "{{user}}"
    ensures |t| == 18
    ensures forall j :: OccursAt(t, "{{", j) ==> j == 0 || j == 10
    ensures t[2..4] == "to" && t[12..14] == "us"
  {
    forall j | OccursAt(t, "{{", j)
      ensures j == 0 || j == 10
    {
      assert t[j] == '{' && t[j + 1] == '{' by {
        assert t[j..j + 2][0] == t[j] && t[j..j + 2][1] == t[j + 1];
      }
    }
  }

  /** Words that merely resemble tokens, `{{today}}` and `{{user}}`, are
      left alone. */
  lemma LookalikeTokensUnchanged(o: Oracles, w: bool)
    ensures ProcessTemplateWith("{{today}} {{user}}", o, w) == Success("{{today}} {{user}}")
  {
    var t := "{{today}}" + " " + "{{user}}";
    LookalikeBraces(t);
    forall j: nat, n: nat | n < 20 && j <= |t|
      ensures !HeadAt(t, j, StepHead(n))
    {
      HeadNeedsBraces(t, j, n);
      HeadLetters(n);
      assert t[2..4][1] == t[3] && t[12..14][1] == t[13];
    }
    UnknownTokensUnchanged(t, o, w);
    assert t == "{{today}} {{user}}";
  }

  /** A template without `{{` comes back unchanged. */
  lemma NoBracesUnchanged(t: string, o: Oracles, w: bool)
    requires !Contains(t, "{{")
    ensures ProcessTemplateWith(t, o, w) == Success(t)
  {
    assert forall j :: 0 <= j <= |t| - 2 ==> !OccursAt(t, "{{", j);
    NoTokenStartsHasNoKnownToken(t);
    UnknownTokensUnchanged(t, o, w);
  }

  /** `s` opens with `{{` and holds no other `{`. */
  predicate OneOpening(s: string) {
    |s| >= 2 && s[0] == '{' && s[1] == '{' && '{' !in s[2..]
  }

  /** In such a text a well-formed pattern can only match at the start. */
  lemma InertAfterOpening(s: string, p: Pattern)
    requires OneOpening(s) && WellFormed(p)
    ensures forall j :: 1 <= j < |s| ==> MatchAt(s, j, p).None?
  {
    forall j | 1 <= j < |s|
      ensures MatchAt(s, j, p).None?
    {
      if j == 1 {
        if |s| > 2 {
          assert s[2] == s[2..][0];
        }
        NoMatchOnMismatch(s, 1, p, 1);
      } else {
        assert s[j] == s[2..][j - 2];
        NoMatchOnMismatch(s, j, p, 0);
      }
    }
  }

  /** A step looking for a token whose name differs, at character `k`,
      from the one token of `s` leaves `s` alone. */
  lemma InertByName(s: string, step: Step, k: nat)
    requires OneOpening(s)
    requires step.Replace? ==>
               WellFormed(step.pattern) && k < |Head(step.pattern)| &&
               (k < |s| ==> LowerChar(s[k]) != Head(step.pattern)[k])
    ensures Inert(s, step)
  {
    if step.Replace? {
      InertAfterOpening(s, step.pattern);
      NoMatchOnMismatch(s, 0, step.pattern, k);
    }
  }

  /** A text without `{{` is left alone by every step. */
  lemma InertWithoutBraces(s: string, step: Step)
    requires !Contains(s, "{{")
    requires step.Replace? ==> WellFormed(step.pattern)
    ensures Inert(s, step)
  {
    if step.Replace? {
      assert forall j :: 0 <= j <= |s| - 2 ==> !OccursAt(s, "{{", j);
      forall j | 0 <= j < |s|
        ensures MatchAt(s, j, step.pattern).None?
      {
        MatchNeedsBraces(s, j, step.pattern);
      }
    }
  }

  const ClipboardToken: string := "{{clipboard}}"

  /** A pass over a text that its pattern matches whole gives the value of
      that one match. */
  lemma PassOnWholeMatch(s: string, p: Pattern, ev: Evaluator, o: Oracles, f: Found)
    requires 0 < |s| && MatchAt(s, 0, p) == Some(f) && f.end == |s|
    ensures Apply(s, Replace(p, ev), o) == Evaluate(ev, o, s, f, 0)
  {
    assert s[0..|s|] == s;
    assert Pass(s, p, ev, o, |s|, 1) == Success("");
    match Evaluate(ev, o, s, f, 0)
    case Failure(_) =>
    case Success(v) =>
      assert v + "" == v;
  }

  /** A fixed-token pass over a text that is exactly its token, in any
      letter case, gives the token's value. */
  lemma FixedPassOnToken(s: string, token: string, v: string, w: bool, o: Oracles)
    requires |token| > 0 && Lower(s) == token
    ensures Apply(s, Fixed(token, v, w), o) == Success(if w then Expand(v, s) else v)
  {
    var f := Found(|s|, "", "");
    assert s[0..|s|] == s;
    assert MatchAt(s, 0, Literal(token)) == Some(f);
    PassOnWholeMatch(s, Literal(token), Fixed(token, v, w).evaluator, o, f);
  }

  /** A text that lower-cases to a `{{`-token has no other `{`. */
  lemma OpeningOfToken(s: string, token: string)
    requires Lower(s) == token && OneOpening(token)
    ensures OneOpening(s)
  {
    assert LowerChar(s[0]) == '{' && LowerChar(s[1]) == '{';
    forall k | 2 <= k < |s|
      ensures s[k] != '{'
    {
      assert token[2..][k - 2] == token[k] == LowerChar(s[k]);
    }
  }

  /** When the steps before step `n` leave `s` alone, running all the
      steps is running those after `n` on what step `n` makes of `s`. */
  lemma RunFrom(s: string, st: seq<Step>, n: nat, v: string, o: Oracles)
    requires n < |st|
    requires forall m :: 0 <= m < n ==> Inert(s, st[m])
    requires Apply(s, st[n], o) == Success(v)
    ensures Run(s, st, o) == Run(v, st[n + 1..], o)
  {
    RunInert(s, st[..n], o);
    assert st == st[..n] + ([st[n]] + st[n + 1..]);
    RunAppend(s, st[..n], [st[n]] + st[n + 1..], o);
    assert ([st[n]] + st[n + 1..])[1..] == st[n + 1..];
  }

  /** A template that is one token, whose name starts with a letter no
      name before pass `n` starts with, reaches pass `n` untouched; the
      passes after it work on what pass `n` makes of it. */
  lemma TokenReachesStep(s: string, o: Oracles, w: bool, n: nat, v: string)
    requires n < 20 && OneOpening(s) && |s| > 2
    requires LowerChar(s[2]) !in StepLetters(2)[0..n]
    requires Apply(s, Steps(o, w)[n], o) == Success(v)
    ensures ProcessTemplateWith(s, o, w) == Run(v, Steps(o, w)[n + 1..], o)
  {
    StepsInertByLetter(s, o, w, 0, n, 2);
    RunFrom(s, Steps(o, w), n, v, o);
    assert !IsBlank(s) by {
      assert !IsWhiteSpace(s[0]);
    }
  }

  /** The last three passes: environment variables, prompts and random
      numbers. */
  lemma ArgumentSteps(o: Oracles, w: bool)
    ensures Steps(o, w)[17] == Replace(Argument(EnvHead), EnvLookup)
    ensures Steps(o, w)[18] == Replace(Argument(InputHead), Prompt)
    ensures Steps(o, w)[19] == Replace(RandomRange, RandomNext(w))
  {
    assert Steps(o, w)[17] == StepAt(o, w, 17);
    assert Steps(o, w)[18] == StepAt(o, w, 18);
    assert Steps(o, w)[19] == StepAt(o, w, 19);
  }

  lemma ClipboardTokenOpens()
    ensures OneOpening(ClipboardToken)
  {
    assert ClipboardToken[2..] == "clipboard}}";
  }

  /** `{{clipboard}}` in any letter case has one opening and an `l` as
      the second letter of its name. */
  lemma ClipboardTokenShape(s: string)
    requires Lower(s) == ClipboardToken
    ensures OneOpening(s) && |s| == 13 && LowerChar(s[3]) == 'l'
  {
    ClipboardTokenOpens();
    OpeningOfToken(s, ClipboardToken);
    assert Lower(s)[3] == LowerChar(s[3]);
  }

  /** The passes before the clipboard pass leave a text alone whose one
      token has `l` as the second letter of its name: no token name before
      `clipboard` has. */
  lemma ClipboardTokenSurvivesPrefix(s: string, o: Oracles, w: bool)
    requires OneOpening(s) && |s| == 13 && LowerChar(s[3]) == 'l'
    ensures forall n :: 0 <= n < 13 ==> Inert(s, Steps(o, w)[n])
  {
    StepsInertByLetter(s, o, w, 0, 13, 3);
  }


  /** The first thirteen passes leave `{{clipboard}}` (in any letter case)
      alone; the clipboard pass replaces it; the rest of the passes work on
      the replacement. */
  lemma ClipboardTokenRun(s: string, o: Oracles, w: bool)
    requires Lower(s) == ClipboardToken
    requires o.clipboard.HasText?
    ensures ProcessTemplateWith(s, o, w) ==
              Run(if w then Expand(o.clipboard.text, s) else o.clipboard.text,
                  Steps(o, w)[14..], o)
  {
    var st := Steps(o, w);
    var v := if w then Expand(o.clipboard.text, s) else o.clipboard.text;
    assert st[13] == Fixed(ClipboardToken, o.clipboard.text, w);
    FixedPassOnToken(s, ClipboardToken, o.clipboard.text, w, o);
    ClipboardTokenShape(s);
    ClipboardTokenSurvivesPrefix(s, o, w);
    RunFrom(s, st, 13, v, o);
    assert !IsBlank(s) by {
      assert LowerChar(s[0]) == '{';
      assert !IsWhiteSpace(s[0]);
    }
  }

  /** The passes after the clipboard pass leave a text alone whose one
      token has `l` as the second letter of its name. */
  lemma ClipboardTokenSurvivesSuffix(s: string, o: Oracles, w: bool)
    requires OneOpening(s) && |s| == 13 && LowerChar(s[3]) == 'l'
    ensures forall n :: 14 <= n < 20 ==> Inert(s, Steps(o, w)[n])
  {
    StepsInertByLetter(s, o, w, 14, 20, 3);
  }


  /** When the clipboard cannot be read or holds no text, `{{clipboard}}`
      stays in place. */
  lemma ClipboardTokenKeptWithoutText(s: string, o: Oracles, w: bool)
    requires Lower(s) == ClipboardToken
    requires !o.clipboard.HasText?
    ensures ProcessTemplateWith(s, o, w) == Success(s)
  {
    var st := Steps(o, w);
    ClipboardTokenShape(s);
    ClipboardTokenSurvivesPrefix(s, o, w);
    ClipboardTokenSurvivesSuffix(s, o, w);
    assert st[13] == Skip;
    RunInert(s, st, o);
  }

  /** The clipboard text replaces `{{clipboard}}` as it is, `$` signs
      included, when it opens no further token. */
  lemma ClipboardInsertedVerbatim(s: string, o: Oracles)
    requires Lower(s) == ClipboardToken
    requires o.clipboard.HasText? && !Contains(o.clipboard.text, "{{")
    ensures ProcessTemplate(s, o) == Success(o.clipboard.text)
  {
    var t := o.clipboard.text;
    var rest := Steps(o, false)[14..];
    ClipboardTokenRun(s, o, false);
    StepsWellFormed(o, false);
    forall n | 0 <= n < |rest|
      ensures Inert(t, rest[n])
    {
      InertWithoutBraces(t, rest[n]);
    }
    RunInert(t, rest, o);
  }

  /** As written, clipboard text `$&` stands for the matched token, so the
      token comes back instead of the clipboard text. */
  lemma ClipboardDollarAmpersandAsWritten(s: string, o: Oracles)
    requires Lower(s) == ClipboardToken
    requires o.clipboard == HasText("$&")
    ensures ProcessTemplateAsWritten(s, o) == Success(s)
    ensures ProcessTemplate(s, o) == Success("$&")
  {
    ClipboardTokenRun(s, o, true);
    assert Expand("$&", s) == s + "";
    assert s + "" == s;
    ClipboardTokenShape(s);
    ClipboardTokenSurvivesSuffix(s, o, true);
    var rest := Steps(o, true)[14..];
    forall n | 0 <= n < |rest|
      ensures Inert(s, rest[n])
    {
      assert rest[n] == Steps(o, true)[n + 14];
    }
    RunInert(s, rest, o);
    assert !Contains("$&", "{{") by {
      assert !OccursAt("$&", "{{", 0);
    }
    ClipboardInsertedVerbatim(s, o);
  }

  // ---------------------------------------------------------------------
  // Which passes can touch a one-token text
  // ---------------------------------------------------------------------

  /** The passes from `lo` to `hi` leave alone a text whose one token
      differs, at letter `k` of its name, from every token those passes
      look for. */
  lemma StepsInertByLetter(s: string, o: Oracles, w: bool, lo: nat, hi: nat, k: nat)
    requires OneOpening(s) && 2 <= k <= 3 && k < |s| && lo <= hi <= 20
    requires LowerChar(s[k]) !in StepLetters(k)[lo..hi]
    ensures forall n :: lo <= n < hi ==> Inert(s, Steps(o, w)[n])
  {
    forall n | lo <= n < hi
      ensures Inert(s, Steps(o, w)[n])
    {
      assert StepLetters(k)[lo..hi][n - lo] == StepLetters(k)[n];
      StepWellFormed(o, w, n);
      StepHeadShape(n, k);
      InertByName(s, Steps(o, w)[n], k);
    }
  }

  // ---------------------------------------------------------------------
  // Random numbers
  // ---------------------------------------------------------------------

  /** A run ends at the first character that does not continue it. */
  lemma SkipWhileStopsAt(s: string, i: nat, ok: char -> bool, j: nat)
    requires i <= j <= |s|
    requires forall k :: i <= k < j ==> ok(s[k])
    requires j < |s| ==> !ok(s[j])
    ensures SkipWhile(s, i, ok) == j
  {
  }

  /** `{{random:a:b}}`, with the head in any letter case. */
  function RandomText(h: string, a: string, b: string): string {
    h + a + ":" + b + "}}"
  }

  /** A random-number token is matched whole, its two digit runs captured. */
  lemma RandomTokenMatches(h: string, a: string, b: string)
    requires Lower(h) == RandomHead
    requires |a| > 0 && |b| > 0 && AllDigits(a) && AllDigits(b)
    ensures MatchAt(RandomText(h, a, b), 0, RandomRange) ==
              Some(Found(|RandomText(h, a, b)|, a, b))
  {
    var s := RandomText(h, a, b);
    assert s[0..9] == h;
    assert s[9..9 + |a|] == a;
    assert s[9 + |a|] == ':';
    assert s[10 + |a|..10 + |a| + |b|] == b;
    RangeMatchesLayout(s, 9, a, b);
  }

  /** Digits, `:`, digits and `}}` laid out from offset `at` to the end
      make a whole range match. */
  lemma RangeMatchesLayout(s: string, at: nat, a: string, b: string)
    requires |a| > 0 && |b| > 0 && AllDigits(a) && AllDigits(b)
    requires at + |a| + |b| + 3 == |s|
    requires s[at..at + |a|] == a && s[at + |a|] == ':'
    requires s[at + |a| + 1..at + |a| + 1 + |b|] == b
    requires s[|s| - 2] == '}' && s[|s| - 1] == '}'
    ensures MatchRange(s, at) == Some(Found(|s|, a, b))
  {
    var j := at + |a|;
    assert forall k :: at <= k < j ==> s[k] == a[k - at];
    SkipWhileStopsAt(s, at, IsDigit, j);
    assert forall k :: j + 1 <= k < j + 1 + |b| ==> s[k] == b[k - j - 1];
    SkipWhileStopsAt(s, j + 1, IsDigit, j + 1 + |b|);
  }

  /** A random-number token has one opening and `r` as the first letter of
      its name. */
  lemma RandomTokenShape(h: string, a: string, b: string)
    requires Lower(h) == RandomHead
    requires AllDigits(a) && AllDigits(b)
    ensures OneOpening(RandomText(h, a, b)) && LowerChar(RandomText(h, a, b)[2]) == 'r'
  {
    var s := RandomText(h, a, b);
    assert Lower(h)[0] == LowerChar(h[0]) && Lower(h)[1] == LowerChar(h[1]);
    assert Lower(h)[2] == LowerChar(h[2]);
    forall k | 2 <= k < |s|
      ensures s[k] != '{'
    {
      if k < 9 {
        assert Lower(h)[k] == LowerChar(h[k]);
      } else if k < 9 + |a| {
        assert s[k] == a[k - 9];
      } else if k > 9 + |a| && k < 10 + |a| + |b| {
        assert s[k] == b[k - 10 - |a|];
      }
    }
  }

  /** When every step but the last leaves `s` alone, the run is the last
      step. */
  lemma RunLast(s: string, st: seq<Step>, o: Oracles)
    requires |st| > 0
    requires forall m :: 0 <= m < |st| - 1 ==> Inert(s, st[m])
    ensures Run(s, st, o) == Apply(s, st[|st| - 1], o)
  {
    var n := |st| - 1;
    RunInert(s, st[..n], o);
    assert st == st[..n] + [st[n]];
    RunAppend(s, st[..n], [st[n]], o);
  }

  /** The random-number pass over a text that it matches whole gives the
      value of that token. */
  lemma RandomPassOnToken(s: string, a: string, b: string, o: Oracles, w: bool)
    requires 0 < |s| && MatchAt(s, 0, RandomRange) == Some(Found(|s|, a, b))
    ensures Apply(s, Replace(RandomRange, RandomNext(w)), o) ==
              RandomValue(a, b, s, o.randomDraw(0), w)
  {
    PassOnWholeMatch(s, RandomRange, RandomNext(w), o, Found(|s|, a, b));
  }

  /** A template that is one random-number token expands to the value of
      that token. */
  lemma RandomTokenRun(h: string, a: string, b: string, o: Oracles, w: bool)
    requires Lower(h) == RandomHead
    requires |a| > 0 && |b| > 0 && AllDigits(a) && AllDigits(b)
    ensures ProcessTemplateWith(RandomText(h, a, b), o, w) ==
              RandomValue(a, b, RandomText(h, a, b), o.randomDraw(0), w)
  {
    var s := RandomText(h, a, b);
    var st := Steps(o, w);
    assert st[19] == Replace(RandomRange, RandomNext(w));
    RandomTokenShape(h, a, b);
    StepsInertByLetter(s, o, w, 0, 19, 2);
    RandomTokenMatches(h, a, b);
    RandomPassOnToken(s, a, b, o, w);
    RunLast(s, st, o);
    assert !IsBlank(s) by {
      assert !IsWhiteSpace(s[0]);
    }
  }

  /** Bounds in order that fit in an `int` give a number between them,
      unless `max + 1` wraps. */
  lemma RandomValueInRange(a: string, b: string, m: string, draw: nat, w: bool) returns (v: int)
    requires |a| > 0 && |b| > 0 && AllDigits(a) && AllDigits(b)
    requires DigitsValue(a) <= DigitsValue(b) <= IntMax
    requires w ==> DigitsValue(b) < IntMax
    ensures RandomValue(a, b, m, draw, w) == Success(IntToString(v))
    ensures DigitsValue(a) <= v <= DigitsValue(b)
  {
    v := Next(DigitsValue(a), DigitsValue(b) + 1, draw);
  }

  /** A random-number token whose bounds fit in an `int`, the upper one
      below `int.MaxValue`, expands to a number from the lower bound to the
      upper one, in both readings of `max + 1`. */
  lemma RandomTokenInRange(h: string, a: string, b: string, o: Oracles, w: bool) returns (v: int)
    requires Lower(h) == RandomHead
    requires |a| > 0 && |b| > 0 && AllDigits(a) && AllDigits(b)
    requires DigitsValue(a) <= DigitsValue(b) < IntMax
    ensures ProcessTemplateWith(RandomText(h, a, b), o, w) == Success(IntToString(v))
    ensures DigitsValue(a) <= v <= DigitsValue(b)
  {
    RandomTokenRun(h, a, b, o, w);
    v := RandomValueInRange(a, b, RandomText(h, a, b), o.randomDraw(0), w);
  }

  /** The other outcomes of a random-number token: a bound too large for
      an `int` leaves the token in place; an upper bound one below the lower
      one gives the lower one; a wider inversion throws. */
  lemma RandomTokenOtherCases(h: string, a: string, b: string, o: Oracles, w: bool)
    requires Lower(h) == RandomHead
    requires |a| > 0 && |b| > 0 && AllDigits(a) && AllDigits(b)
    ensures DigitsValue(a) > IntMax || DigitsValue(b) > IntMax ==>
              ProcessTemplateWith(RandomText(h, a, b), o, w) == Success(RandomText(h, a, b))
    ensures DigitsValue(a) <= IntMax && DigitsValue(a) == DigitsValue(b) + 1 ==>
              ProcessTemplateWith(RandomText(h, a, b), o, w) == Success(IntToString(DigitsValue(a)))
    ensures DigitsValue(a) <= IntMax && DigitsValue(a) > DigitsValue(b) + 1 ==>
              ProcessTemplateWith(RandomText(h, a, b), o, w) == Failure(RandomRangeOutOfOrder)
  {
    RandomTokenRun(h, a, b, o, w);
  }

  /** With `max + 1` computed exactly, every upper bound that fits in an
      `int` is reachable: the number drawn lies between the bounds. */
  lemma RandomTokenUpToMaxInt(h: string, a: string, b: string, o: Oracles) returns (v: int)
    requires Lower(h) == RandomHead
    requires |a| > 0 && |b| > 0 && AllDigits(a) && AllDigits(b)
    requires DigitsValue(a) <= DigitsValue(b) <= IntMax
    ensures ProcessTemplate(RandomText(h, a, b), o) == Success(IntToString(v))
    ensures DigitsValue(a) <= v <= DigitsValue(b)
  {
    RandomTokenRun(h, a, b, o, false);
    v := RandomValueInRange(a, b, RandomText(h, a, b), o.randomDraw(0), false);
  }

  /** As written, `max + 1` wraps to `int.MinValue` when the upper bound is
      `int.MaxValue`, and `Random.Next` throws. */
  lemma RandomMaxIntThrowsAsWritten(h: string, a: string, b: string, o: Oracles)
    requires Lower(h) == RandomHead
    requires |a| > 0 && |b| > 0 && AllDigits(a) && AllDigits(b)
    requires DigitsValue(a) <= IntMax && DigitsValue(b) == IntMax
    ensures ProcessTemplateAsWritten(RandomText(h, a, b), o) == Failure(RandomRangeOutOfOrder)
  {
    RandomTokenRun(h, a, b, o, true);
    assert Wrap32(IntMax + 1) == IntMin;
  }

  // ---------------------------------------------------------------------
  // Tokens with an argument
  // ---------------------------------------------------------------------

  const EnvHead: string := "{{env:"
  const InputHead: string := "{{input:"

  /** `{{name:arg}}`, with the head in any letter case. */
  function ArgumentText(h: string, arg: string): string {
    h + arg + "}}"
  }

  /** A token with an argument is matched whole, its argument captured. */
  lemma ArgumentTokenMatches(h: string, head: string, arg: string)
    requires Lower(h) == head
    requires |arg| > 0 && '}' !in arg
    ensures MatchAt(ArgumentText(h, arg), 0, Argument(head)) ==
              Some(Found(|ArgumentText(h, arg)|, arg, ""))
  {
    var s := ArgumentText(h, arg);
    var j := |h| + |arg|;
    assert s[0..|h|] == h;
    assert forall k :: |h| <= k < j ==> s[k] == arg[k - |h|];
    assert s[j] == '}' && s[j + 1] == '}';
    SkipWhileStopsAt(s, |h|, NotBrace, j);
    assert s[|h|..j] == arg;
  }

  /** An argument pass over a text that is one such token gives the
      token's value. */
  lemma ArgumentPassOnToken(h: string, head: string, arg: string, ev: Evaluator, o: Oracles)
    requires Lower(h) == head
    requires |arg| > 0 && '}' !in arg
    ensures Apply(ArgumentText(h, arg), Replace(Argument(head), ev), o) ==
              Evaluate(ev, o, ArgumentText(h, arg), Found(|ArgumentText(h, arg)|, arg, ""), 0)
  {
    ArgumentTokenMatches(h, head, arg);
    PassOnWholeMatch(ArgumentText(h, arg), Argument(head), ev, o, Found(|ArgumentText(h, arg)|, arg, ""));
  }

  /** A token with an argument free of braces has one opening; the first
      letter of its name is the head's. */
  lemma ArgumentTokenShape(h: string, head: string, arg: string)
    requires Lower(h) == head && OneOpening(head)
    requires '}' !in arg && '{' !in arg
    ensures OneOpening(ArgumentText(h, arg))
    ensures |head| > 2 ==> LowerChar(ArgumentText(h, arg)[2]) == head[2]
  {
    var s := ArgumentText(h, arg);
    OpeningOfToken(h, head);
    assert Lower(h)[0] == LowerChar(h[0]) && Lower(h)[1] == LowerChar(h[1]);
    if |head| > 2 {
      assert Lower(h)[2] == LowerChar(h[2]);
    }
    forall k | 2 <= k < |s|
      ensures s[k] != '{'
    {
      if k < |h| {
        assert s[k] == h[k] == h[2..][k - 2];
      } else if k < |h| + |arg| {
        assert s[k] == arg[k - |h|];
      }
    }
  }

  lemma HeadsOpen()
    ensures OneOpening(EnvHead) && OneOpening(InputHead)
  {
    assert EnvHead[2..] == "env:";
    assert InputHead[2..] == "input:";
  }

  /** `{{env:NAME}}` passes untouched to the environment pass, which
      replaces it by the variable's value or, for an unset variable, by
      itself. */
  lemma EnvTokenRun(h: string, name: string, o: Oracles, w: bool)
    requires Lower(h) == EnvHead
    requires |name| > 0 && '}' !in name && '{' !in name
    ensures OneOpening(ArgumentText(h, name)) && LowerChar(ArgumentText(h, name)[2]) == 'e'
    ensures ProcessTemplateWith(ArgumentText(h, name), o, w) ==
              Run(o.environment(name).GetOr(ArgumentText(h, name)), Steps(o, w)[18..], o)
  {
    var s := ArgumentText(h, name);
    HeadsOpen();
    ArgumentTokenShape(h, EnvHead, name);
    LateInitialsFresh();
    EnvPassOnToken(h, name, o, w);
    TokenReachesStep(s, o, w, 17, o.environment(name).GetOr(s));
  }

  /** No pass before the environment pass looks for a name starting with
      `e`, and none before the prompt pass for one starting with `i`. */
  lemma LateInitialsFresh()
    ensures 'e' !in StepLetters(2)[0..17] && 'i' !in StepLetters(2)[0..18]
  {
    assert StepLetters(2)[0..17] == "ddttdddymducucggg";
    assert StepLetters(2)[0..18] == "ddttdddymducucggge";
  }

  /** The environment pass turns `{{env:NAME}}` into the variable's value,
      or leaves it for an unset variable. */
  lemma EnvPassOnToken(h: string, name: string, o: Oracles, w: bool)
    requires Lower(h) == EnvHead
    requires |name| > 0 && '}' !in name
    ensures Apply(ArgumentText(h, name), Steps(o, w)[17], o) ==
              Success(o.environment(name).GetOr(ArgumentText(h, name)))
  {
    ArgumentSteps(o, w);
    ArgumentPassOnToken(h, EnvHead, name, EnvLookup, o);
  }

  /** The prompt pass turns `{{input:PROMPT}}` into what the user typed,
      or into nothing after Cancel. */
  lemma InputPassOnToken(h: string, prompt: string, o: Oracles, w: bool)
    requires Lower(h) == InputHead
    requires |prompt| > 0 && '}' !in prompt
    ensures Apply(ArgumentText(h, prompt), Steps(o, w)[18], o) == Success(o.input(0, prompt).GetOr(""))
  {
    ArgumentSteps(o, w);
    ArgumentPassOnToken(h, InputHead, prompt, Prompt, o);
  }

  /** The passes after a given one leave a text without `{{` alone. */
  lemma RestInertWithoutBraces(t: string, o: Oracles, w: bool, from: nat)
    requires from <= 20 && !Contains(t, "{{")
    ensures Run(t, Steps(o, w)[from..], o) == Success(t)
  {
    StepsWellFormed(o, w);
    var rest := Steps(o, w)[from..];
    forall n | 0 <= n < |rest|
      ensures Inert(t, rest[n])
    {
      InertWithoutBraces(t, rest[n]);
    }
    RunInert(t, rest, o);
  }

  /** `{{env:NAME}}` expands to the variable's value; for an unset variable
      the token stays in place. */
  lemma EnvTokenValue(h: string, name: string, o: Oracles, w: bool)
    requires Lower(h) == EnvHead
    requires |name| > 0 && '}' !in name && '{' !in name
    ensures o.environment(name).None? ==>
              ProcessTemplateWith(ArgumentText(h, name), o, w) == Success(ArgumentText(h, name))
    ensures o.environment(name).Some? && !Contains(o.environment(name).value, "{{") ==>
              ProcessTemplateWith(ArgumentText(h, name), o, w) == Success(o.environment(name).value)
  {
    var s := ArgumentText(h, name);
    EnvTokenRun(h, name, o, w);
    if o.environment(name).None? {
      StepsInertByLetter(s, o, w, 18, 20, 2);
      var rest := Steps(o, w)[18..];
      forall n | 0 <= n < |rest|
        ensures Inert(s, rest[n])
      {
        assert rest[n] == Steps(o, w)[n + 18];
      }
      RunInert(s, rest, o);
    } else if !Contains(o.environment(name).value, "{{") {
      RestInertWithoutBraces(o.environment(name).value, o, w, 18);
    }
  }

  /** `{{input:PROMPT}}` expands to what the user typed after OK, and to
      nothing after Cancel. */
  lemma InputTokenValue(h: string, prompt: string, o: Oracles, w: bool)
    requires Lower(h) == InputHead
    requires |prompt| > 0 && '}' !in prompt && '{' !in prompt
    ensures o.input(0, prompt).None? ==>
              ProcessTemplateWith(ArgumentText(h, prompt), o, w) == Success("")
    ensures o.input(0, prompt).Some? && !Contains(o.input(0, prompt).value, "{{") ==>
              ProcessTemplateWith(ArgumentText(h, prompt), o, w) == Success(o.input(0, prompt).value)
  {
    var s := ArgumentText(h, prompt);
    var v := o.input(0, prompt).GetOr("");
    HeadsOpen();
    ArgumentTokenShape(h, InputHead, prompt);
    LateInitialsFresh();
    InputPassOnToken(h, prompt, o, w);
    TokenReachesStep(s, o, w, 18, v);
    assert !Contains("", "{{");
    if !Contains(v, "{{") {
      RestInertWithoutBraces(v, o, w, 19);
    }
  }

  // ---------------------------------------------------------------------
  // Passes feed one another
  // ---------------------------------------------------------------------

  const UserNameToken: string := "{{username}}"
  const GuidToken: string := "{{guid}}"

  lemma FixedTokensOpen()
    ensures OneOpening(UserNameToken) && OneOpening(GuidToken)
  {
    assert UserNameToken[2..] == "username}}";
    assert GuidToken[2..] == "guid}}";
  }

  /** A text that is a `{{`-token in any letter case has one opening, and
      the first letter of its name is the token's. */
  lemma TokenShape(s: string, token: string)
    requires Lower(s) == token && OneOpening(token) && |token| > 2
    ensures OneOpening(s) && |s| > 2 && LowerChar(s[2]) == token[2]
  {
    OpeningOfToken(s, token);
    assert Lower(s)[2] == LowerChar(s[2]);
  }

  /** `{{username}}` (any letter case) becomes the user name, which the
      later passes then work on. */
  lemma UserNameTokenRun(s: string, o: Oracles, w: bool)
    requires Lower(s) == UserNameToken
    ensures ProcessTemplateWith(s, o, w) ==
              Run(if w then Expand(o.userName, s) else o.userName, Steps(o, w)[11..], o)
  {
    var st := Steps(o, w);
    var u := if w then Expand(o.userName, s) else o.userName;
    assert st[10] == Fixed(UserNameToken, o.userName, w);
    FixedTokensOpen();
    TokenShape(s, UserNameToken);
    StepsInertByLetter(s, o, w, 0, 10, 2);
    FixedPassOnToken(s, UserNameToken, o.userName, w, o);
    RunFrom(s, st, 10, u, o);
    assert !IsBlank(s) by {
      assert !IsWhiteSpace(s[0]);
    }
  }

  /** From pass 11 on, `{{guid}}` (any letter case) becomes the GUID, which
      the later passes then work on. */
  lemma GuidTokenRunFrom11(u: string, o: Oracles)
    requires Lower(u) == GuidToken
    ensures Run(u, Steps(o, false)[11..], o) == Run(o.guid, Steps(o, false)[15..], o)
  {
    var st := Steps(o, false);
    assert st[14] == Fixed(GuidToken, o.guid, false);
    FixedTokensOpen();
    TokenShape(u, GuidToken);
    StepsInertByLetter(u, o, false, 11, 14, 2);
    FixedPassOnToken(u, GuidToken, o.guid, false, o);
    var mid := st[11..];
    forall m | 0 <= m < 3
      ensures Inert(u, mid[m])
    {
      assert mid[m] == st[11 + m];
    }
    assert mid[3] == st[14];
    RunFrom(u, mid, 3, o.guid, o);
    assert mid[4..] == st[15..];
  }

  /** Each pass works on what the passes before it produced: a user name
      that is itself `{{guid}}` comes out as the GUID. */
  lemma InsertedTokensExpandLater(s: string, o: Oracles)
    requires Lower(s) == UserNameToken
    requires Lower(o.userName) == GuidToken
    requires !Contains(o.guid, "{{")
    ensures ProcessTemplate(s, o) == Success(o.guid)
  {
    UserNameTokenRun(s, o, false);
    GuidTokenRunFrom11(o.userName, o);
    StepsWellFormed(o, false);
    var rest := Steps(o, false)[15..];
    forall n | 0 <= n < |rest|
      ensures Inert(o.guid, rest[n])
    {
      InertWithoutBraces(o.guid, rest[n]);
    }
    RunInert(o.guid, rest, o);
  }

  // ---------------------------------------------------------------------
  // Fixed tokens and string replacement
  // ---------------------------------------------------------------------

  /** Lower-casing commutes with slicing. */
  lemma LowerSlice(s: string, a: nat, b: nat)
    requires a <= b <= |s|
    ensures Lower(s[a..b]) == Lower(s)[a..b]
  {
    assert forall k :: 0 <= k < b - a ==> Lower(s[a..b])[k] == LowerChar(s[a + k]);
  }

  /** On a text without upper-case letters, a fixed token matches exactly
      where it occurs. */
  lemma LowerTextMatch(s: string, i: nat, token: string)
    requires |token| > 0 && Lower(s) == s && i + |token| <= |s|
    ensures MatchAt(s, i, Literal(token)) ==
              if s[i..i + |token|] == token then Some(Found(i + |token|, "", "")) else None
  {
    LowerSlice(s, i, i + |token|);
  }

  /** On a text without upper-case letters, a fixed-token pass with its
      value inserted as it is is the ordinal `string.Replace` of the token
      by the value. */
  lemma {:induction false} FixedPassIsReplace(s: string, token: string, v: string, o: Oracles, i: nat, k: nat)
    requires |token| > 0
    requires Lower(s) == s
    requires i <= |s|
    ensures Pass(s, Literal(token), Verbatim(v), o, i, k) == Success(ReplaceAll(s[i..], token, v))
    decreases |s| - i, 1
  {
    if |s| - i < |token| {
      FixedPassOnShortTail(s, token, v, o, i, k);
    } else if s[i..i + |token|] == token {
      FixedPassOnOccurrence(s, token, v, o, i, k);
    } else {
      FixedPassOnMismatch(s, token, v, o, i, k);
    }
  }

  /** The end of `FixedPassIsReplace`: a tail shorter than the token is
      kept. */
  lemma FixedPassOnShortTail(s: string, token: string, v: string, o: Oracles, i: nat, k: nat)
    requires |token| > 0 && i <= |s| && |s| - i < |token|
    ensures Pass(s, Literal(token), Verbatim(v), o, i, k) == Success(ReplaceAll(s[i..], token, v))
  {
    forall j | i <= j < |s|
      ensures MatchAt(s, j, Literal(token)).None?
    {
      assert !HeadAt(s, j, Head(Literal(token)));
    }
    PassWithoutMatch(s, Literal(token), Verbatim(v), o, i, k);
  }

  /** The step of `FixedPassIsReplace` at an occurrence of the token. */
  lemma FixedPassOnOccurrence(s: string, token: string, v: string, o: Oracles, i: nat, k: nat)
    requires |token| > 0 && Lower(s) == s
    requires i + |token| <= |s| && s[i..i + |token|] == token
    ensures Pass(s, Literal(token), Verbatim(v), o, i, k) == Success(ReplaceAll(s[i..], token, v))
    decreases |s| - i, 0
  {
    FixedPassIsReplace(s, token, v, o, i + |token|, k + 1);
    LowerTextMatch(s, i, token);
    VerbatimPassInserts(s, Literal(token), v, o, i, k, ReplaceAll(s[i + |token|..], token, v));
    ReplaceAtSuffixOccurrence(s, i, token, v);
  }

  /** `ReplaceAtOccurrence` for a suffix of a text. */
  lemma ReplaceAtSuffixOccurrence(s: string, i: nat, token: string, v: string)
    requires 0 < |token| && i + |token| <= |s| && s[i..i + |token|] == token
    ensures ReplaceAll(s[i..], token, v) == v + ReplaceAll(s[i + |token|..], token, v)
  {
    var t := s[i..];
    assert t[..|token|] == token;
    ReplaceAtOccurrence(t, token, v);
    assert t[|token|..] == s[i + |token|..];
  }

  /** Where the pattern matches and the rest of the pass succeeds, a pass
      inserting a fixed value inserts it before the rest. */
  lemma VerbatimPassInserts(s: string, p: Pattern, v: string, o: Oracles, i: nat, k: nat, rest: string)
    requires i < |s| && MatchAt(s, i, p).Some?
    requires Pass(s, p, Verbatim(v), o, MatchAt(s, i, p).value.end, k + 1) == Success(rest)
    ensures Pass(s, p, Verbatim(v), o, i, k) == Success(v + rest)
  {
    VerbatimPassOnMatch(s, p, v, o, i, k);
  }

  /** The step of `FixedPassIsReplace` where the token does not occur. */
  lemma FixedPassOnMismatch(s: string, token: string, v: string, o: Oracles, i: nat, k: nat)
    requires |token| > 0 && Lower(s) == s
    requires i + |token| <= |s| && s[i..i + |token|] != token
    ensures Pass(s, Literal(token), Verbatim(v), o, i, k) == Success(ReplaceAll(s[i..], token, v))
    decreases |s| - i, 0
  {
    FixedPassIsReplace(s, token, v, o, i + 1, k);
    var t := s[i..];
    LowerTextMatch(s, i, token);
    assert t[..|token|] == s[i..i + |token|];
    ReplaceAtMismatch(t, token, v);
    assert t[1..] == s[i + 1..];
    PassOnMiss(s, Literal(token), Verbatim(v), o, i, k);
  }

  /** Where the pattern matches, a pass inserting a fixed value inserts it
      and goes on after the match. */
  lemma VerbatimPassOnMatch(s: string, p: Pattern, v: string, o: Oracles, i: nat, k: nat)
    requires i < |s| && MatchAt(s, i, p).Some?
    ensures Pass(s, p, Verbatim(v), o, i, k) ==
              match Pass(s, p, Verbatim(v), o, MatchAt(s, i, p).value.end, k + 1)
              case Failure(e) => Failure(e)
              case Success(rest) => Success(v + rest)
  {
  }

  /** Where the pattern does not match, a pass keeps the character. */
  lemma PassOnMiss(s: string, p: Pattern, ev: Evaluator, o: Oracles, i: nat, k: nat)
    requires i < |s| && MatchAt(s, i, p).None?
    ensures Pass(s, p, ev, o, i, k) ==
              match Pass(s, p, ev, o, i + 1, k)
              case Failure(e) => Failure(e)
              case Success(rest) => Success([s[i]] + rest)
  {
  }

  // ---------------------------------------------------------------------
  // The two readings of replacement values
  // ---------------------------------------------------------------------

  /** A value without `$` gives the same pass in both readings. */
  lemma {:induction false} SubstitutedPassAgrees(s: string, p: Pattern, v: string, o: Oracles, i: nat, k: nat)
    requires '$' !in v && i <= |s|
    ensures Pass(s, p, Substituted(v), o, i, k) == Pass(s, p, Verbatim(v), o, i, k)
    decreases |s| - i
  {
    if i < |s| {
      match MatchAt(s, i, p)
      case Some(f) => SubstitutedPassAgrees(s, p, v, o, f.end, k + 1);
      case None => SubstitutedPassAgrees(s, p, v, o, i + 1, k);
    }
  }

  /** Two steps that do the same to every text. */
  predicate SameEffect(x: Step, y: Step) {
    x == y ||
    (x.Replace? && y.Replace? && x.pattern == y.pattern &&
     x.evaluator.Substituted? && y.evaluator == Verbatim(x.evaluator.value) &&
     '$' !in x.evaluator.value)
  }

  /** Lists of steps with the same effect, position by position, run the
      same. */
  lemma {:induction false} RunSameEffect(t: string, a: seq<Step>, b: seq<Step>, o: Oracles)
    requires |a| == |b|
    requires forall n :: 0 <= n < |a| ==> SameEffect(a[n], b[n])
    ensures Run(t, a, o) == Run(t, b, o)
    decreases |a|
  {
    if |a| > 0 {
      if a[0] != b[0] {
        SubstitutedPassAgrees(t, a[0].pattern, a[0].evaluator.value, o, 0, 0);
      }
      match Apply(t, a[0], o)
      case Failure(_) =>
      case Success(u) => RunSameEffect(u, a[1..], b[1..], o);
    }
  }

  /** No free-text value the expander inserts holds a `$`. */
  predicate NoDollarValues(o: Oracles) {
    '$' !in o.dateText && '$' !in o.timeText && '$' !in o.dateTimeText &&
    '$' !in o.userName && '$' !in o.machineName && '$' !in o.userDomainName &&
    (o.clipboard.HasText? ==> '$' !in o.clipboard.text) &&
    '$' !in o.guid && '$' !in o.guidN && '$' !in o.guidD
  }

  lemma NoDollarInNumber(n: int)
    ensures '$' !in IntToString(n)
  {
    var d := if n >= 0 then NatToString(n) else NatToString(-n);
    assert AllDigits(d);
    assert '$' !in d;
    if n < 0 {
      assert IntToString(n) == "-" + d;
    }
  }

  /** Without `$` in the inserted values, the two readings of each pass
      before the random-number pass have the same effect. */
  lemma StepSameEffect(o: Oracles, n: nat)
    requires NoDollarValues(o) && n < 19
    ensures SameEffect(StepAt(o, true, n), StepAt(o, false, n))
  {
    if n < 6 {
      EarlyStepSameEffect(o, n);
    } else if n < 10 {
      DateStepSameEffect(o, n);
    } else {
      LateStepSameEffect(o, n);
    }
  }

  lemma EarlyStepSameEffect(o: Oracles, n: nat)
    requires NoDollarValues(o) && n < 6
    ensures SameEffect(StepAt(o, true, n), StepAt(o, false, n))
  {
    match n
    case 0 => FixedSameEffect(StepHead(0), o.dateText);
    case 2 => FixedSameEffect(StepHead(2), o.timeText);
    case 4 => FixedSameEffect(StepHead(4), o.dateTimeText);
    case _ =>
  }

  lemma NoDollarInDayName(d: DayOfWeek)
    ensures '$' !in DayName(d)
  {
    match d
    case Sunday => assert DayName(d) == "Sun" + "day";
    case Monday => assert DayName(d) == "Mon" + "day";
    case Tuesday => assert DayName(d) == "Tues" + "day";
    case Wednesday => assert DayName(d) == "Wednes" + "day";
    case Thursday => assert DayName(d) == "Thurs" + "day";
    case Friday => assert DayName(d) == "Fri" + "day";
    case Saturday => assert DayName(d) == "Satur" + "day";
  }

  lemma DateStepSameEffect(o: Oracles, n: nat)
    requires 6 <= n < 10
    ensures SameEffect(StepAt(o, true, n), StepAt(o, false, n))
  {
    match n
    case 6 =>
      NoDollarInDayName(o.dayOfWeek);
      FixedSameEffect(StepHead(6), DayName(o.dayOfWeek));
    case 7 =>
      NoDollarInNumber(o.year);
      FixedSameEffect(StepHead(7), IntToString(o.year));
    case 8 =>
      NoDollarInNumber(o.month);
      FixedSameEffect(StepHead(8), IntToString(o.month));
    case 9 =>
      NoDollarInNumber(o.day);
      FixedSameEffect(StepHead(9), IntToString(o.day));
  }

  lemma LateStepSameEffect(o: Oracles, n: nat)
    requires NoDollarValues(o) && 10 <= n < 19
    ensures SameEffect(StepAt(o, true, n), StepAt(o, false, n))
  {
    match n
    case 10 => FixedSameEffect(StepHead(10), o.userName);
    case 11 => FixedSameEffect(StepHead(11), o.machineName);
    case 12 => FixedSameEffect(StepHead(12), o.userDomainName);
    case 13 => ClipboardSameEffect(o.clipboard);
    case 14 => FixedSameEffect(StepHead(14), o.guid);
    case 15 => FixedSameEffect(StepHead(15), o.guidN);
    case 16 => FixedSameEffect(StepHead(16), o.guidD);
    case _ =>
  }

  lemma FixedSameEffect(token: string, v: string)
    requires '$' !in v
    ensures SameEffect(Fixed(token, v, true), Fixed(token, v, false))
  {
  }

  lemma ClipboardSameEffect(c: ClipboardState)
    requires c.HasText? ==> '$' !in c.text
    ensures SameEffect(ClipboardStep(c, true), ClipboardStep(c, false))
  {
  }

  /** When no inserted value holds a `$`, both readings agree on every
      pass before the random-number pass. */
  lemma ReadingsAgreeWithoutDollars(t: string, o: Oracles)
    requires NoDollarValues(o)
    ensures Run(t, Steps(o, true)[..19], o) == Run(t, Steps(o, false)[..19], o)
  {
    var a := Steps(o, true)[..19];
    var b := Steps(o, false)[..19];
    forall n | 0 <= n < 19
      ensures SameEffect(a[n], b[n])
    {
      StepSameEffect(o, n);
    }
    RunSameEffect(t, a, b, o);
  }
}
