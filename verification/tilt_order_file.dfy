/** The tilt-order text formats of tomo_motioncor2: the comma-separated list
    given on the command line, the tilt.order file (one "order [dose]" line per
    tilt, in physical tilt order), and the checks an order or dose list must
    pass before it is used. Float parsing and '%f' formatting are passed in as
    functions; everything else follows Python 2 string semantics. */
module TiltOrderFile {
  import opened Wrappers
  import opened PyList
  import opened PyText
  import TiltOrder

  // ------------------------------------------------- comma-separated lists

  /** int() of every token; None when any token is not an integer. */
  function ParseInts(tokens: seq<string>): (r: Option<seq<int>>)
    ensures r.Some? ==> |r.value| == |tokens|
  {
    if tokens == [] then Some([])
    else
      var head := ParseInt(tokens[0]);
      var rest := ParseInts(tokens[1..]);
      if head.Some? && rest.Some? then Some([head.value] + rest.value) else None
  }

  /** A list parses to xs exactly when each token parses to its entry. */
  lemma {:induction false} ParseIntsPointwise(tokens: seq<string>, xs: seq<int>)
    requires |xs| == |tokens|
    ensures ParseInts(tokens) == Some(xs) <==>
      forall i :: 0 <= i < |tokens| ==> ParseInt(tokens[i]) == Some(xs[i])
  {
    if tokens != [] {
      ParseIntsPointwise(tokens[1..], xs[1..]);
      assert xs == [xs[0]] + xs[1..];
    }
  }

  /** One token that is not an integer makes the whole list fail. */
  lemma {:induction false} ParseIntsFailsOn(tokens: seq<string>, k: nat)
    requires k < |tokens| && ParseInt(tokens[k]).None?
    ensures ParseInts(tokens) == None
  {
    if k > 0 {
      ParseIntsFailsOn(tokens[1..], k - 1);
    }
  }

  lemma ParseIntsCons(t: string, ts: seq<string>)
    requires ParseInt(t).Some? && ParseInts(ts).Some?
    ensures ParseInts([t] + ts) == Some([ParseInt(t).value] + ParseInts(ts).value)
  {
    assert ([t] + ts)[0] == t && ([t] + ts)[1..] == ts;
  }

  /** str() of every number. */
  function IntStrings(xs: seq<int>): (strs: seq<string>)
    ensures |strs| == |xs|
  {
    seq(|xs|, i requires 0 <= i < |xs| => IntToStr(xs[i]))
  }

  /** display_number_list: ', '.join(str(e) for e in number_list) */
  function DisplayNumberList(xs: seq<int>): string
  {
    Join(IntStrings(xs), ", ")
  }

  /** read_custom_tilt_order: split on ',' and int() each part; None stands for
      the exit on a part that is not an integer. */
  function ReadCustomTiltOrder(text: string): Option<seq<int>>
  {
    ParseInts(SplitOn(text, ','))
  }

  lemma DisplayCons(x: int, xs: seq<int>)
    requires xs != []
    ensures DisplayNumberList([x] + xs) == IntToStr(x) + ", " + DisplayNumberList(xs)
  {
    assert IntStrings([x] + xs)[1..] == IntStrings(xs);
  }

  lemma IntToStrHasNoComma(n: int)
    ensures ',' !in IntToStr(n)
  {
    var s := IntToStr(n);
    IntToStrHasNoSpaceAtEnds(n);
    if n < 0 {
      assert s[1..] == NatToStr(-n);
      assert forall i :: 1 <= i < |s| ==> IsDigit(s[i]);
    }
  }

  /** A printed number after leading whitespace is one comma-free part. */
  lemma NoCommaInPrinted(w: string, x: int)
    requires AllSpace(w)
    ensures ',' !in w + IntToStr(x)
  {
    var first := w + IntToStr(x);
    IntToStrHasNoComma(x);
    assert forall i :: 0 <= i < |w| ==> first[i] == w[i] && IsSpace(w[i]);
    assert forall i :: |w| <= i < |first| ==> first[i] == IntToStr(x)[i - |w|];
  }

  lemma ReadDisplayedSingle(w: string, x: int)
    requires AllSpace(w)
    ensures ReadCustomTiltOrder(w + DisplayNumberList([x])) == Some([x])
  {
    var first := w + IntToStr(x);
    ParseIntToStr(w, x);
    NoCommaInPrinted(w, x);
    assert IntStrings([x]) == [IntToStr(x)];
    assert DisplayNumberList([x]) == IntToStr(x);
    assert SplitOn(first, ',') == [first];
    ParseIntsCons(first, []);
    assert [first] + [] == [first] && [x] + [] == [x];
  }

  /** Reading the printed list back, after any leading whitespace, gives the
      numbers back. */
  lemma {:induction false} ReadDisplayedFrom(w: string, xs: seq<int>)
    requires AllSpace(w) && xs != []
    ensures ReadCustomTiltOrder(w + DisplayNumberList(xs)) == Some(xs)
    decreases |xs|
  {
    if |xs| == 1 {
      ReadDisplayedSingle(w, xs[0]);
      assert xs == [xs[0]];
    } else {
      var first := w + IntToStr(xs[0]);
      ParseIntToStr(w, xs[0]);
      NoCommaInPrinted(w, xs[0]);
      var rest := xs[1..];
      var tail := " " + DisplayNumberList(rest);
      assert xs == [xs[0]] + rest;
      DisplayCons(xs[0], rest);
      assert w + DisplayNumberList(xs) == first + [','] + tail;
      SplitOnCons(first, ',', tail);
      ReadDisplayedFrom(" ", rest);
      ParseIntsCons(first, SplitOn(tail, ','));
    }
  }

  /** read_custom_tilt_order(display_number_list(xs)) == xs for every
      non-empty list; the empty list prints as "" and reads back as a failure. */
  lemma ReadDisplayedNumberList(xs: seq<int>)
    ensures xs != [] ==> ReadCustomTiltOrder(DisplayNumberList(xs)) == Some(xs)
    ensures xs == [] ==> ReadCustomTiltOrder(DisplayNumberList(xs)) == None
  {
    if xs != [] {
      ReadDisplayedFrom("", xs);
      assert "" + DisplayNumberList(xs) == DisplayNumberList(xs);
    } else {
      assert SplitOn("", ',') == [""];
      assert ParseInt("") == None;
    }
  }

  // ------------------------------------------------------------ validation

  datatype ValidationError =
    | TooShort          // fewer entries than tilts: exit
    | NotPermutation    // not a continuous set of integers from 1: exit
    | SliceTypeError    // doses_list[0:doses_list] raises TypeError

  /** validate_tilt_order: a list longer than the series is cut to its first
      totalTilts entries, a shorter one is rejected, and what is left must be a
      permutation of 1..totalTilts. */
  function ValidateTiltOrder(order: seq<int>, totalTilts: nat): (r: Result<seq<int>, ValidationError>)
    ensures r.Success? <==> |order| >= totalTilts && IsPermutation(order[..totalTilts])
    ensures r.Success? ==> r.value == order[..totalTilts]
    ensures r.Failure? ==> (r.error == TooShort <==> |order| < totalTilts)
    ensures r.Failure? ==> r.error != SliceTypeError
  {
    var kept := if |order| > totalTilts then order[..totalTilts] else order;
    assert |order| == totalTilts ==> kept == order[..totalTilts];
    if |order| < totalTilts then Failure(TooShort)
    else if !IsPermutation(kept) then Failure(NotPermutation)
    else Success(kept)
  }

  /** A validated order numbers every tilt once: each of 1..totalTilts occurs,
      exactly once, and nothing else does. */
  lemma ValidatedOrderIsBijection(order: seq<int>, totalTilts: nat)
    requires ValidateTiltOrder(order, totalTilts).Success?
    ensures var v := ValidateTiltOrder(order, totalTilts).value;
      |v| == totalTilts && Distinct(v) && forall x :: x in v <==> 1 <= x <= totalTilts
  {
    PermutationIsBijection(ValidateTiltOrder(order, totalTilts).value);
  }

  /** Validation is idempotent. */
  lemma ValidateTwice(order: seq<int>, totalTilts: nat)
    requires ValidateTiltOrder(order, totalTilts).Success?
    ensures var v := ValidateTiltOrder(order, totalTilts).value;
      ValidateTiltOrder(v, totalTilts) == Success(v)
  {
    var v := ValidateTiltOrder(order, totalTilts).value;
    assert v[..totalTilts] == v;
  }

  /** An order computed from a tilt scheme always passes validation unchanged. */
  lemma SchemeOrderValidates(name: string, minAngle: real, angleStep: real, totalTilts: nat, start: real)
    requires TiltOrder.TiltOrderFromTiltScheme(name, minAngle, angleStep, totalTilts, start).Success?
    ensures var order := TiltOrder.TiltOrderFromTiltScheme(name, minAngle, angleStep, totalTilts, start).value;
      ValidateTiltOrder(order, totalTilts) == Success(order)
  {
    var order := TiltOrder.TiltOrderFromTiltScheme(name, minAngle, angleStep, totalTilts, start).value;
    assert order[..totalTilts] == order;
  }

  /** validate_doses as written: the too-long branch slices with the list
      itself and raises TypeError instead of truncating. float() of a float is
      the float, so a list that passes is returned as it is. */
  function ValidateDosesAsWritten(doses: seq<real>, totalTilts: nat): (r: Result<seq<real>, ValidationError>)
    ensures r.Success? <==> |doses| == totalTilts
    ensures r.Success? ==> r.value == doses
    ensures r.Failure? ==> (r.error == SliceTypeError <==> |doses| > totalTilts)
    ensures r.Failure? ==> r.error != NotPermutation
  {
    if |doses| > totalTilts then Failure(SliceTypeError)
    else if |doses| < totalTilts then Failure(TooShort)
    else Success(doses)
  }

  /** validate_doses as its message says it should behave: a list that is too
      long is cut to its first totalTilts doses. */
  function ValidateDoses(doses: seq<real>, totalTilts: nat): (r: Result<seq<real>, ValidationError>)
    ensures r.Success? <==> |doses| >= totalTilts
    ensures r.Success? ==> r.value == doses[..totalTilts]
    ensures r.Failure? ==> r.error == TooShort
  {
    if |doses| > totalTilts then Success(doses[..totalTilts])
    else if |doses| < totalTilts then Failure(TooShort)
    else Success(doses)
  }

  /** The two versions agree except on a list that is too long, where the
      written one fails; two doses for a one-tilt series show it. */
  lemma ValidateDosesDiscrepancy(doses: seq<real>, totalTilts: nat)
    ensures |doses| <= totalTilts ==> ValidateDosesAsWritten(doses, totalTilts) == ValidateDoses(doses, totalTilts)
    ensures |doses| > totalTilts ==>
      ValidateDosesAsWritten(doses, totalTilts) == Failure(SliceTypeError) &&
      ValidateDoses(doses, totalTilts) == Success(doses[..totalTilts])
    ensures ValidateDosesAsWritten([1.0, 2.0], 1) == Failure(SliceTypeError)
    ensures ValidateDoses([1.0, 2.0], 1) == Success([1.0])
  {
    assert [1.0, 2.0][..1] == [1.0];
  }

  // ------------------------------------------------------ the tilt.order file

  predicate IsBlank(line: string)
  {
    SplitFields(line) == []
  }

  predicate HasDoseColumn(line: string)
  {
    |SplitFields(line)| > 1
  }

  predicate AllBlank(lines: seq<string>)
  {
    forall i :: 0 <= i < |lines| ==> IsBlank(lines[i])
  }

  predicate NoLineHasDose(lines: seq<string>)
  {
    forall i :: 0 <= i < |lines| ==> !HasDoseColumn(lines[i])
  }

  /** Every non-blank line has a second column. */
  predicate EveryLineHasDose(lines: seq<string>)
  {
    forall i :: 0 <= i < |lines| ==> IsBlank(lines[i]) || HasDoseColumn(lines[i])
  }

  /** The first field of every non-blank line, in file order. */
  function OrderTokens(lines: seq<string>): (tokens: seq<string>)
    ensures |tokens| <= |lines|
  {
    if lines == [] then []
    else
      var fields := SplitFields(lines[|lines| - 1]);
      OrderTokens(lines[..|lines| - 1]) + (if |fields| > 0 then [fields[0]] else [])
  }

  /** The second field of every line that has one, in file order. */
  function DoseTokens(lines: seq<string>): (tokens: seq<string>)
    ensures |tokens| <= |lines|
  {
    if lines == [] then []
    else
      var fields := SplitFields(lines[|lines| - 1]);
      DoseTokens(lines[..|lines| - 1]) + (if |fields| > 1 then [fields[1]] else [])
  }

  /** The dose column of a tilt.order file. */
  datatype DoseColumn =
    | NoDoses                     // no line has a second column: None
    | Floats(doses: seq<real>)    // every order has a dose
    | RawTokens(tokens: seq<string>)  // some but not all: the strings, unparsed

  datatype TiltFileError =
    | OrderNotInteger   // "Tilt order file must be a set of integers"
    | DoseNotFloat      // "Tilt order file doses must be a set of floats"

  /** float() of every token; None when any token is not a float. */
  function ParseFloats(tokens: seq<string>, parseFloat: string -> Option<real>): (r: Option<seq<real>>)
    ensures r.Some? ==> |r.value| == |tokens|
    ensures r.Some? ==> forall i :: 0 <= i < |tokens| ==> parseFloat(tokens[i]) == Some(r.value[i])
  {
    if tokens == [] then Some([])
    else
      match (parseFloat(tokens[0]), ParseFloats(tokens[1..], parseFloat))
      case (Some(x), Some(rest)) => Some([x] + rest)
      case _ => None
  }

  /** What read_tilt_order returns for the lines of a file: the integer
      orders, then the doses as floats when there is one per order, the raw
      dose strings when some but not all lines have one, and None when none
      does. */
  function TiltOrderOfLines(lines: seq<string>, parseFloat: string -> Option<real>)
    : Result<(seq<int>, DoseColumn), TiltFileError>
  {
    TiltOrderOfTokens(OrderTokens(lines), DoseTokens(lines), parseFloat)
  }

  function TiltOrderOfTokens(orderTokens: seq<string>, doseTokens: seq<string>, parseFloat: string -> Option<real>)
    : Result<(seq<int>, DoseColumn), TiltFileError>
  {
    match ParseInts(orderTokens)
    case None => Failure(OrderNotInteger)
    case Some(order) =>
      if |doseTokens| == |order| then
        match ParseFloats(doseTokens, parseFloat)
        case None => Failure(DoseNotFloat)
        case Some(doses) => Success((order, Floats(doses)))
      else if |doseTokens| > 0 then Success((order, RawTokens(doseTokens)))
      else Success((order, NoDoses))
  }

  /** read_tilt_order over the lines of an opened file. */
  method ReadTiltOrder(lines: seq<string>, parseFloat: string -> Option<real>)
    returns (r: Result<(seq<int>, DoseColumn), TiltFileError>)
    ensures r == TiltOrderOfLines(lines, parseFloat)
  {
    var orderTokens: seq<string> := [];
    var doseTokens: seq<string> := [];
    for i := 0 to |lines|
      invariant orderTokens == OrderTokens(lines[..i])
      invariant doseTokens == DoseTokens(lines[..i])
    {
      assert lines[..i + 1][..i] == lines[..i];
      var value := SplitFields(lines[i]);
      if |value| > 0 {
        orderTokens := orderTokens + [value[0]];
      }
      if |value| > 1 {
        doseTokens := doseTokens + [value[1]];
      }
    }
    assert lines[..|lines|] == lines;
    r := TiltOrderOfTokens(orderTokens, doseTokens, parseFloat);
  }

  lemma {:induction false} TokensAppend(a: seq<string>, b: seq<string>)
    ensures OrderTokens(a + b) == OrderTokens(a) + OrderTokens(b)
    ensures DoseTokens(a + b) == DoseTokens(a) + DoseTokens(b)
    decreases |b|
  {
    if b == [] {
      assert a + b == a;
    } else {
      var b' := b[..|b| - 1];
      assert (a + b)[..|a + b| - 1] == a + b';
      assert (a + b)[|a + b| - 1] == b[|b| - 1];
      TokensAppend(a, b');
    }
  }

  lemma TokensOfLine(line: string)
    ensures var fields := SplitFields(line);
      OrderTokens([line]) == (if |fields| > 0 then [fields[0]] else []) &&
      DoseTokens([line]) == (if |fields| > 1 then [fields[1]] else [])
  {
    assert [line][..0] == [];
  }

  /** Blank lines are skipped: removing one changes nothing. */
  lemma BlankLineIgnored(a: seq<string>, line: string, b: seq<string>, parseFloat: string -> Option<real>)
    requires IsBlank(line)
    ensures TiltOrderOfLines(a + [line] + b, parseFloat) == TiltOrderOfLines(a + b, parseFloat)
  {
    TokensAppend(a + [line], b);
    TokensAppend(a, [line]);
    TokensAppend(a, b);
    TokensOfLine(line);
    assert OrderTokens(a + [line]) == OrderTokens(a);
    assert DoseTokens(a + [line]) == DoseTokens(a);
    assert OrderTokens(a + [line] + b) == OrderTokens(a + b);
    assert DoseTokens(a + [line] + b) == DoseTokens(a + b);
  }

  /** Only the first two fields of a line are read. */
  lemma ExtraColumnsIgnored(a: seq<string>, line: string, line': string, b: seq<string>,
                            parseFloat: string -> Option<real>)
    requires SplitFields(line)[..Min2(|SplitFields(line)|)] == SplitFields(line')[..Min2(|SplitFields(line')|)]
    ensures TiltOrderOfLines(a + [line] + b, parseFloat) == TiltOrderOfLines(a + [line'] + b, parseFloat)
  {
    TokensAppend(a + [line], b);
    TokensAppend(a, [line]);
    TokensAppend(a + [line'], b);
    TokensAppend(a, [line']);
    TokensOfLine(line);
    TokensOfLine(line');
    var f, f' := SplitFields(line), SplitFields(line');
    assert |f| > 0 ==> f[0] == f[..Min2(|f|)][0];
    assert |f| > 1 ==> f[1] == f[..Min2(|f|)][1];
    assert |f'| > 0 ==> f'[0] == f'[..Min2(|f'|)][0];
    assert |f'| > 1 ==> f'[1] == f'[..Min2(|f'|)][1];
  }

  function Min2(n: nat): nat
  {
    if n < 2 then n else 2
  }

  /** How many tokens the last line adds. */
  lemma TokensSnoc(lines: seq<string>)
    requires lines != []
    ensures var init, last := lines[..|lines| - 1], lines[|lines| - 1];
      |OrderTokens(lines)| == |OrderTokens(init)| + (if IsBlank(last) then 0 else 1) &&
      |DoseTokens(lines)| == |DoseTokens(init)| + (if HasDoseColumn(last) then 1 else 0)
  {
  }

  /** One order per non-blank line: none exactly when every line is blank. */
  lemma {:induction false} NoOrderTokens(lines: seq<string>)
    ensures |OrderTokens(lines)| == 0 <==> AllBlank(lines)
  {
    if lines != [] {
      var init := lines[..|lines| - 1];
      NoOrderTokens(init);
      TokensSnoc(lines);
      if AllBlank(lines) {
        forall i | 0 <= i < |init| ensures IsBlank(init[i]) {
          assert init[i] == lines[i];
        }
      } else {
        var i :| 0 <= i < |lines| && !IsBlank(lines[i]);
        if i < |init| {
          assert init[i] == lines[i];
        }
      }
    }
  }

  /** One dose per line with a second column: none exactly when no line has
      one. */
  lemma {:induction false} NoDoseTokens(lines: seq<string>)
    ensures |DoseTokens(lines)| == 0 <==> NoLineHasDose(lines)
  {
    if lines != [] {
      var init := lines[..|lines| - 1];
      NoDoseTokens(init);
      TokensSnoc(lines);
      if NoLineHasDose(lines) {
        forall i | 0 <= i < |init| ensures !HasDoseColumn(init[i]) {
          assert init[i] == lines[i];
        }
      }
    }
  }

  /** At most one dose per order. */
  lemma {:induction false} DoseTokensAtMostOrders(lines: seq<string>)
    ensures |DoseTokens(lines)| <= |OrderTokens(lines)|
  {
    if lines != [] {
      DoseTokensAtMostOrders(lines[..|lines| - 1]);
      TokensSnoc(lines);
    }
  }

  /** Exactly one dose per order when every non-blank line has a second
      column. */
  lemma {:induction false} DoseTokensPerOrder(lines: seq<string>)
    ensures |DoseTokens(lines)| == |OrderTokens(lines)| <==> EveryLineHasDose(lines)
  {
    if lines != [] {
      var init := lines[..|lines| - 1];
      DoseTokensPerOrder(init);
      DoseTokensAtMostOrders(init);
      TokensSnoc(lines);
      if EveryLineHasDose(lines) {
        forall i | 0 <= i < |init| ensures IsBlank(init[i]) || HasDoseColumn(init[i]) {
          assert init[i] == lines[i];
        }
      }
    }
  }

  /** The three shapes of the dose column, decided by how many dose tokens
      there are next to the order tokens. */
  lemma DoseColumnShapes(lines: seq<string>, parseFloat: string -> Option<real>)
    requires ParseInts(OrderTokens(lines)).Some?
    ensures var r := TiltOrderOfLines(lines, parseFloat);
      r.Failure? <==> |DoseTokens(lines)| == |OrderTokens(lines)| && ParseFloats(DoseTokens(lines), parseFloat).None?
    ensures var r := TiltOrderOfLines(lines, parseFloat);
      r.Failure? ==> r.error == DoseNotFloat
    ensures var r := TiltOrderOfLines(lines, parseFloat);
      r.Success? ==>
        r.value.0 == ParseInts(OrderTokens(lines)).value &&
        (r.value.1.Floats? <==> |DoseTokens(lines)| == |OrderTokens(lines)|) &&
        (r.value.1 == NoDoses <==> |DoseTokens(lines)| == 0 && |OrderTokens(lines)| > 0) &&
        (r.value.1.RawTokens? <==> |DoseTokens(lines)| != |OrderTokens(lines)| && |DoseTokens(lines)| > 0) &&
        (r.value.1.RawTokens? ==> r.value.1.tokens == DoseTokens(lines))
  {
  }

  /** The dose column is read as floats exactly when every non-blank line has
      a dose and every dose is a float (the orders being integers). */
  lemma FloatsWhenEveryLineHasADose(lines: seq<string>, parseFloat: string -> Option<real>)
    requires ParseInts(OrderTokens(lines)).Some?
    ensures var r := TiltOrderOfLines(lines, parseFloat);
      (r.Success? && r.value.1.Floats?) <==>
      EveryLineHasDose(lines) && ParseFloats(DoseTokens(lines), parseFloat).Some?
  {
    DoseTokensPerOrder(lines);
    DoseColumnShapes(lines, parseFloat);
  }

  /** The doses are None exactly when no line has a second column and some
      line is not blank. */
  lemma NoDosesWhenNoLineHasOne(lines: seq<string>, parseFloat: string -> Option<real>)
    requires ParseInts(OrderTokens(lines)).Some?
    ensures var r := TiltOrderOfLines(lines, parseFloat);
      (r.Success? && r.value.1 == NoDoses) <==>
      NoLineHasDose(lines) && !AllBlank(lines)
  {
    NoOrderTokens(lines);
    NoDoseTokens(lines);
    DoseColumnShapes(lines, parseFloat);
  }

  /** When some but not all non-blank lines carry a dose, the raw dose strings
      are returned rather than None. */
  lemma RawTokensWhenSomeLinesLackADose(lines: seq<string>, parseFloat: string -> Option<real>)
    requires ParseInts(OrderTokens(lines)).Some?
    requires !NoLineHasDose(lines) && !EveryLineHasDose(lines)
    ensures TiltOrderOfLines(lines, parseFloat) ==
      Success((ParseInts(OrderTokens(lines)).value, RawTokens(DoseTokens(lines))))
  {
    NoDoseTokens(lines);
    DoseTokensPerOrder(lines);
    DoseColumnShapes(lines, parseFloat);
  }

  /** An empty (or all-blank) file gives no orders and an empty dose list,
      not None. */
  lemma BlankFile(lines: seq<string>, parseFloat: string -> Option<real>)
    requires AllBlank(lines)
    ensures TiltOrderOfLines(lines, parseFloat) == Success(([], Floats([])))
  {
    NoOrderTokens(lines);
    DoseTokensAtMostOrders(lines);
    assert OrderTokens(lines) == [] && DoseTokens(lines) == [];
  }

  /** A line whose first field is not an integer makes the whole read fail. */
  lemma NonIntegerOrderFails(lines: seq<string>, k: nat, parseFloat: string -> Option<real>)
    requires k < |lines|
    requires |SplitFields(lines[k])| > 0 && ParseInt(SplitFields(lines[k])[0]).None?
    ensures TiltOrderOfLines(lines, parseFloat) == Failure(OrderNotInteger)
  {
    var a, b := lines[..k], lines[k + 1..];
    assert lines == a + [lines[k]] + b;
    TokensAppend(a + [lines[k]], b);
    TokensAppend(a, [lines[k]]);
    TokensOfLine(lines[k]);
    var tokens := OrderTokens(lines);
    assert tokens == OrderTokens(a) + [SplitFields(lines[k])[0]] + OrderTokens(b);
    ParseIntsFailsOn(tokens, |OrderTokens(a)|);
  }

  // --------------------------------------------------------------- writing

  /** write_tilt_order: '%d\n' per order when there are no doses, otherwise
      '%d\t%f\n' per (order, dose) pair of zip(order_list, doses_list). */
  function WriteTiltOrder(order: seq<int>, doses: Option<seq<real>>, formatFloat: real -> string): string
  {
    match doses
    case None => Concat(OrderLines(order))
    case Some(ds) => Concat(OrderDoseLines(order, ds, formatFloat))
  }

  function OrderLines(order: seq<int>): (lines: seq<string>)
    ensures |lines| == |order|
  {
    seq(|order|, i requires 0 <= i < |order| => IntToStr(order[i]) + "\n")
  }

  /** zip stops at the shorter of the two lists. */
  function PairCount(order: seq<int>, doses: seq<real>): nat
  {
    if |order| <= |doses| then |order| else |doses|
  }

  function OrderDoseLines(order: seq<int>, doses: seq<real>, formatFloat: real -> string): (lines: seq<string>)
    ensures |lines| == PairCount(order, doses)
  {
    var n := PairCount(order, doses);
    seq(n, i requires 0 <= i < n => IntToStr(order[i]) + "\t" + formatFloat(doses[i]) + "\n")
  }

  /** A '%f' field: at least one character and no whitespace. */
  predicate IsFloatField(s: string)
  {
    |s| > 0 && NoSpace(s)
  }

  /** A line of text without whitespace before its final newline. */
  lemma WordLine(w: string)
    requires NoSpace(w)
    ensures IsLine(w + "\n")
  {
    var line := w + "\n";
    assert line[..|line| - 1] == w;
    assert forall i :: 0 <= i < |w| ==> w[i] != '\n';
  }

  /** '%d\n' % n is a line whose only field is str(n). */
  lemma WrittenPlainLine(n: int)
    ensures IsLine(IntToStr(n) + "\n")
    ensures SplitFields(IntToStr(n) + "\n") == [IntToStr(n)]
  {
    IntToStrHasNoSpaceAtEnds(n);
    WordLine(IntToStr(n));
    SplitFieldsCons(IntToStr(n), "\n");
    SplitFieldsOfSpace("\n");
    assert [IntToStr(n)] + [] == [IntToStr(n)];
  }

  lemma TabThenField(f: string)
    requires IsFloatField(f)
    ensures SplitFields("\t" + f + "\n") == [f]
  {
    var s := "\t" + f + "\n";
    assert s[1..] == f + "\n";
    assert SplitFields(s) == SplitFields(f + "\n");
    SplitFieldsCons(f, "\n");
    SplitFieldsOfSpace("\n");
    assert [f] + [] == [f];
  }

  /** '%d\t%f\n' % (n, dose) is a line whose fields are str(n) and the dose. */
  lemma WrittenDoseLine(n: int, f: string)
    requires IsFloatField(f)
    ensures IsLine(IntToStr(n) + "\t" + f + "\n")
    ensures SplitFields(IntToStr(n) + "\t" + f + "\n") == [IntToStr(n), f]
  {
    var s := IntToStr(n);
    IntToStrHasNoSpaceAtEnds(n);
    var line := s + "\t" + f + "\n";
    assert line == s + ("\t" + f + "\n");
    assert '\n' !in line[..|line| - 1] by {
      assert line[..|line| - 1] == s + "\t" + f;
      assert forall i :: 0 <= i < |s| ==> s[i] != '\n';
      assert forall i :: 0 <= i < |f| ==> f[i] != '\n';
    }
    SplitFieldsCons(s, "\t" + f + "\n");
    TabThenField(f);
  }

  /** The tokens of the lines written without doses: the printed orders and
      no doses. */
  lemma {:induction false} OrderLinesTokens(order: seq<int>)
    ensures OrderTokens(OrderLines(order)) == IntStrings(order)
    ensures DoseTokens(OrderLines(order)) == []
  {
    if order != [] {
      var m := |order| - 1;
      var lines := OrderLines(order);
      OrderLinesSnoc(order);
      OrderLinesTokens(order[..m]);
      WrittenPlainLine(order[m]);
      LastLineTokens(lines, [IntToStr(order[m])]);
      IntStringsSnoc(order);
    }
  }

  lemma OrderLinesSnoc(order: seq<int>)
    requires order != []
    ensures var m := |order| - 1;
      OrderLines(order)[..m] == OrderLines(order[..m]) &&
      OrderLines(order)[m] == IntToStr(order[m]) + "\n"
  {
  }

  lemma IntStringsSnoc(xs: seq<int>)
    requires xs != []
    ensures var m := |xs| - 1; IntStrings(xs) == IntStrings(xs[..m]) + [IntToStr(xs[m])]
  {
  }

  /** Unfolds the token lists once at the last line, whose fields are known. */
  lemma LastLineTokens(lines: seq<string>, fields: seq<string>)
    requires lines != [] && SplitFields(lines[|lines| - 1]) == fields
    ensures OrderTokens(lines) ==
      OrderTokens(lines[..|lines| - 1]) + (if |fields| > 0 then [fields[0]] else [])
    ensures DoseTokens(lines) ==
      DoseTokens(lines[..|lines| - 1]) + (if |fields| > 1 then [fields[1]] else [])
  {
  }

  /** The tokens of the lines written with doses: the printed orders and the
      printed doses. */
  lemma {:induction false} OrderDoseLinesTokens(order: seq<int>, doses: seq<real>, formatFloat: real -> string)
    requires |order| == |doses|
    requires forall i :: 0 <= i < |doses| ==> IsFloatField(formatFloat(doses[i]))
    ensures OrderTokens(OrderDoseLines(order, doses, formatFloat)) == IntStrings(order)
    ensures DoseTokens(OrderDoseLines(order, doses, formatFloat)) == FormattedDoses(doses, formatFloat)
  {
    if order != [] {
      var m := |order| - 1;
      var lines := OrderDoseLines(order, doses, formatFloat);
      OrderDoseLinesSnoc(order, doses, formatFloat);
      OrderDoseLinesTokens(order[..m], doses[..m], formatFloat);
      var f := formatFloat(doses[m]);
      WrittenDoseLine(order[m], f);
      LastLineTokens(lines, [IntToStr(order[m]), f]);
      IntStringsSnoc(order);
      FormattedDosesSnoc(doses, formatFloat);
    }
  }

  lemma OrderDoseLinesSnoc(order: seq<int>, doses: seq<real>, formatFloat: real -> string)
    requires |order| == |doses| && order != []
    ensures var m := |order| - 1;
      OrderDoseLines(order, doses, formatFloat)[..m] == OrderDoseLines(order[..m], doses[..m], formatFloat) &&
      OrderDoseLines(order, doses, formatFloat)[m] == IntToStr(order[m]) + "\t" + formatFloat(doses[m]) + "\n"
  {
  }

  lemma FormattedDosesSnoc(doses: seq<real>, formatFloat: real -> string)
    requires doses != []
    ensures var m := |doses| - 1;
      FormattedDoses(doses, formatFloat) == FormattedDoses(doses[..m], formatFloat) + [formatFloat(doses[m])]
  {
  }

  function FormattedDoses(doses: seq<real>, formatFloat: real -> string): (tokens: seq<string>)
    ensures |tokens| == |doses|
  {
    seq(|doses|, i requires 0 <= i < |doses| => formatFloat(doses[i]))
  }

  /** Reading back a file written without doses gives the orders back and no
      doses, for every non-empty order list. */
  lemma ReadWrittenOrder(order: seq<int>, formatFloat: real -> string, parseFloat: string -> Option<real>)
    requires order != []
    ensures TiltOrderOfLines(ReadLines(WriteTiltOrder(order, None, formatFloat)), parseFloat)
      == Success((order, NoDoses))
  {
    var lines := OrderLines(order);
    forall i | 0 <= i < |lines| ensures IsLine(lines[i]) {
      WrittenPlainLine(order[i]);
    }
    ReadLinesConcat(lines);
    OrderLinesTokens(order);
    ParseIntStrings(order);
  }

  /** Reading back a file written with doses gives the orders and the parsed
      doses of the pairs written, provided '%f' writes one field that float()
      accepts. */
  lemma ReadWrittenOrderAndDoses(order: seq<int>, doses: seq<real>, formatFloat: real -> string,
                                 parseFloat: string -> Option<real>)
    requires forall i :: 0 <= i < |doses| ==>
      IsFloatField(formatFloat(doses[i])) && parseFloat(formatFloat(doses[i])).Some?
    ensures var n := PairCount(order, doses);
      TiltOrderOfLines(ReadLines(WriteTiltOrder(order, Some(doses), formatFloat)), parseFloat)
      == Success((order[..n], Floats(Reparsed(doses[..n], formatFloat, parseFloat))))
  {
    var n := PairCount(order, doses);
    assert OrderDoseLines(order, doses, formatFloat) == OrderDoseLines(order[..n], doses[..n], formatFloat);
    ReadWrittenPairs(order[..n], doses[..n], formatFloat, parseFloat);
  }

  /** The dose values float() reads back from their '%f' text. */
  function Reparsed(doses: seq<real>, formatFloat: real -> string, parseFloat: string -> Option<real>): (r: seq<real>)
    requires forall i :: 0 <= i < |doses| ==> parseFloat(formatFloat(doses[i])).Some?
    ensures |r| == |doses|
  {
    seq(|doses|, i requires 0 <= i < |doses| => parseFloat(formatFloat(doses[i])).value)
  }

  lemma ReadWrittenPairs(order: seq<int>, doses: seq<real>, formatFloat: real -> string,
                         parseFloat: string -> Option<real>)
    requires |order| == |doses|
    requires forall i :: 0 <= i < |doses| ==>
      IsFloatField(formatFloat(doses[i])) && parseFloat(formatFloat(doses[i])).Some?
    ensures TiltOrderOfLines(ReadLines(Concat(OrderDoseLines(order, doses, formatFloat))), parseFloat)
      == Success((order, Floats(Reparsed(doses, formatFloat, parseFloat))))
  {
    var lines := OrderDoseLines(order, doses, formatFloat);
    OrderDoseLinesAreLines(order, doses, formatFloat);
    ReadLinesConcat(lines);
    OrderDoseLinesTokens(order, doses, formatFloat);
    ParseIntStrings(order);
    ParseReparsed(doses, formatFloat, parseFloat);
  }

  lemma OrderDoseLinesAreLines(order: seq<int>, doses: seq<real>, formatFloat: real -> string)
    requires |order| == |doses|
    requires forall i :: 0 <= i < |doses| ==> IsFloatField(formatFloat(doses[i]))
    ensures forall i :: 0 <= i < |order| ==> IsLine(OrderDoseLines(order, doses, formatFloat)[i])
  {
    var lines := OrderDoseLines(order, doses, formatFloat);
    forall i | 0 <= i < |lines| ensures IsLine(lines[i]) {
      WrittenDoseLine(order[i], formatFloat(doses[i]));
    }
  }

  lemma ParseReparsed(doses: seq<real>, formatFloat: real -> string, parseFloat: string -> Option<real>)
    requires forall i :: 0 <= i < |doses| ==> parseFloat(formatFloat(doses[i])).Some?
    ensures ParseFloats(FormattedDoses(doses, formatFloat), parseFloat) ==
      Some(Reparsed(doses, formatFloat, parseFloat))
  {
    var tokens := FormattedDoses(doses, formatFloat);
    ParseFormatted(tokens, parseFloat);
    assert seq(|tokens|, i requires 0 <= i < |tokens| => parseFloat(tokens[i]).value) ==
      Reparsed(doses, formatFloat, parseFloat);
  }

  lemma {:induction false} ParseFormatted(tokens: seq<string>, parseFloat: string -> Option<real>)
    requires forall i :: 0 <= i < |tokens| ==> parseFloat(tokens[i]).Some?
    ensures ParseFloats(tokens, parseFloat) ==
      Some(seq(|tokens|, i requires 0 <= i < |tokens| => parseFloat(tokens[i]).value))
  {
    ParseFloatsSucceeds(tokens, parseFloat);
    var r := ParseFloats(tokens, parseFloat).value;
    assert r == seq(|tokens|, i requires 0 <= i < |tokens| => parseFloat(tokens[i]).value);
  }

  lemma {:induction false} ParseFloatsSucceeds(tokens: seq<string>, parseFloat: string -> Option<real>)
    requires forall i :: 0 <= i < |tokens| ==> parseFloat(tokens[i]).Some?
    ensures ParseFloats(tokens, parseFloat).Some?
  {
    if tokens != [] {
      ParseFloatsSucceeds(tokens[1..], parseFloat);
    }
  }

  lemma ParseIntStrings(xs: seq<int>)
    ensures ParseInts(IntStrings(xs)) == Some(xs)
  {
    forall i | 0 <= i < |xs| ensures ParseInt(IntStrings(xs)[i]) == Some(xs[i]) {
      ParseIntToStr("", xs[i]);
      assert "" + IntToStr(xs[i]) == IntToStr(xs[i]);
    }
    ParseIntsPointwise(IntStrings(xs), xs);
  }
}
