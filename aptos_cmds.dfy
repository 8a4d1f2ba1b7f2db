/** `ModuleIdWrapper::from_str` of crates/client/src/aptos_cmds.rs: a module id
    written "address::name" is split on "::", must yield exactly two parts, and the
    parts go to the address parser and the identifier validator. Both of those live
    in the Move core types library, so they are parameters here. */
module AptosCmds {
  import opened Results
  import opened AptosUtils

  /** `sep` occurs in `s` starting at position `i`. */
  predicate OccursAt(s: string, sep: string, i: int) {
    0 <= i && i + |sep| <= |s| && s[i..i + |sep|] == sep
  }

  predicate Contains(s: string, sep: string) {
    exists i :: 0 <= i <= |s| && OccursAt(s, sep, i)
  }

  lemma OccursAtShift(s: string, sep: string, i: int)
    requires |s| > 0 && 0 <= i
    ensures OccursAt(s[1..], sep, i) <==> OccursAt(s, sep, i + 1)
  {
    if i + |sep| <= |s[1..]| {
      assert s[1..][i..i + |sep|] == s[i + 1..i + 1 + |sep|];
    }
  }

  /** Occurrences in `s` past its first character are the occurrences in `s[1..]`, shifted by one. */
  lemma FindStep(s: string, sep: string)
    requires |sep| > 0 && |s| >= |sep| && s[..|sep|] != sep
    ensures !OccursAt(s, sep, 0)
    ensures forall j :: 1 <= j ==> (OccursAt(s, sep, j) <==> OccursAt(s[1..], sep, j - 1))
    ensures Contains(s, sep) <==> Contains(s[1..], sep)
  {
    forall j | 1 <= j
      ensures OccursAt(s, sep, j) <==> OccursAt(s[1..], sep, j - 1)
    {
      OccursAtShift(s, sep, j - 1);
    }
    if Contains(s, sep) {
      var i :| 0 <= i <= |s| && OccursAt(s, sep, i);
      assert i != 0;
      assert OccursAt(s[1..], sep, i - 1);
    }
    if Contains(s[1..], sep) {
      var i :| 0 <= i <= |s[1..]| && OccursAt(s[1..], sep, i);
      assert OccursAt(s, sep, i + 1);
    }
  }

  /** The leftmost occurrence of a non-empty separator, as `str::find` reports it. */
  function Find(s: string, sep: string): (r: Option<nat>)
    requires |sep| > 0
    ensures r.Some? ==> OccursAt(s, sep, r.value)
    ensures r.Some? ==> forall j :: 0 <= j < r.value ==> !OccursAt(s, sep, j)
    ensures r.None? <==> !Contains(s, sep)
    decreases |s|
  {
    if |s| < |sep| then None
    else if s[..|sep|] == sep then assert OccursAt(s, sep, 0); Some(0)
    else
      var r := Find(s[1..], sep);
      FindStep(s, sep);
      match r
      case None => None
      case Some(i) => Some(i + 1)
  }

  /** The parts joined back together with the separator between them. */
  function Join(parts: seq<string>, sep: string): string
    requires |parts| >= 1
  {
    if |parts| == 1 then parts[0] else parts[0] + sep + Join(parts[1..], sep)
  }

  lemma NoOccurrenceBeforeFirst(s: string, sep: string, f: nat)
    requires |sep| > 0
    requires OccursAt(s, sep, f)
    requires forall j :: 0 <= j < f ==> !OccursAt(s, sep, j)
    ensures !Contains(s[..f], sep)
  {
    if Contains(s[..f], sep) {
      var j :| 0 <= j <= f && OccursAt(s[..f], sep, j);
      assert j + |sep| <= f <= |s|;
      assert s[..f][j..j + |sep|] == s[j..j + |sep|];
      assert OccursAt(s, sep, j);
    }
  }

  /** Each part but the last ends at the first occurrence of the separator in what remains:
      the part followed by the separator holds no occurrence that starts inside the part. */
  predicate CutsAtFirst(parts: seq<string>, sep: string) {
    forall i :: 0 <= i < |parts| - 1 ==>
      forall j :: 0 <= j < |parts[i]| ==> !OccursAt(parts[i] + sep, sep, j)
  }

  lemma FirstCutHasNoEarlierOccurrence(s: string, sep: string, f: nat)
    requires OccursAt(s, sep, f)
    requires forall j :: 0 <= j < f ==> !OccursAt(s, sep, j)
    ensures forall j :: 0 <= j < f ==> !OccursAt(s[..f] + sep, sep, j)
  {
    assert s[..f] + sep == s[..f + |sep|];
    forall j | 0 <= j < f
      ensures OccursAt(s[..f] + sep, sep, j) ==> OccursAt(s, sep, j)
    {
      assert s[..f + |sep|][j..j + |sep|] == s[j..j + |sep|];
    }
  }

  /** `str::split` with a non-empty separator: cut at each occurrence, left to right,
      without overlap. The parts rebuild the input, none of them holds the separator, and
      every cut is at the first occurrence in what remains. */
  function Split(s: string, sep: string): (parts: seq<string>)
    requires |sep| > 0
    ensures |parts| >= 1
    ensures Join(parts, sep) == s
    ensures forall i :: 0 <= i < |parts| ==> !Contains(parts[i], sep)
    ensures CutsAtFirst(parts, sep)
    decreases |s|
  {
    match Find(s, sep)
    case None => [s]
    case Some(f) =>
      NoOccurrenceBeforeFirst(s, sep, f);
      FirstCutHasNoEarlierOccurrence(s, sep, f);
      var rest := Split(s[f + |sep|..], sep);
      var parts := [s[..f]] + rest;
      assert parts[1..] == rest;
      assert forall i :: 1 <= i < |parts| ==> parts[i] == rest[i - 1];
      assert s == s[..f] + sep + s[f + |sep|..];
      parts
  }

  /** The contract of Split determines its result: any parts that rebuild the input, hold
      no separator and cut at first occurrences are exactly `Split(s, sep)`. */
  lemma {:induction false} SplitUnique(s: string, sep: string, parts: seq<string>)
    requires |sep| > 0 && |parts| >= 1
    requires Join(parts, sep) == s
    requires forall i :: 0 <= i < |parts| ==> !Contains(parts[i], sep)
    requires CutsAtFirst(parts, sep)
    ensures parts == Split(s, sep)
    decreases |parts|
  {
    if |parts| == 1 {
      assert !Contains(s, sep);
    } else {
      var p0, rest := parts[0], parts[1..];
      var t := Join(rest, sep);
      assert s == p0 + sep + t;
      assert s[|p0|..|p0| + |sep|] == sep;
      assert OccursAt(s, sep, |p0|);
      forall j | 0 <= j < |p0|
        ensures OccursAt(s, sep, j) ==> OccursAt(p0 + sep, sep, j)
      {
        assert (p0 + sep)[j..j + |sep|] == s[j..j + |sep|];
      }
      var f := Find(s, sep).value;
      assert f == |p0|;
      assert s[..f] == p0 && s[f + |sep|..] == t;
      assert forall i :: 0 <= i < |rest| ==> rest[i] == parts[i + 1];
      SplitUnique(t, sep, rest);
    }
  }

  /** Rust's `"::::".split("::")` gives three empty parts. */
  lemma FourColonsSplit()
    ensures Split("::::", ModuleSeparator) == ["", "", ""]
  {
    var parts := ["", "", ""];
    assert Join(parts[2..], ModuleSeparator) == "";
    assert Join(parts, ModuleSeparator) == "::::";
    forall i | 0 <= i < 3 ensures !Contains(parts[i], ModuleSeparator) {
      assert parts[i] == "";
    }
    SplitUnique("::::", ModuleSeparator, parts);
  }

  /** Splitting yields a single part exactly when the separator does not occur. */
  lemma SplitSingleIff(s: string, sep: string)
    requires |sep| > 0
    ensures |Split(s, sep)| == 1 <==> !Contains(s, sep)
  {
  }

  /** Two occurrences that do not overlap give at least three parts. */
  lemma SplitAtLeastThree(s: string, sep: string, i: int, j: int)
    requires |sep| > 0
    requires OccursAt(s, sep, i) && OccursAt(s, sep, j) && i + |sep| <= j
    ensures |Split(s, sep)| >= 3
  {
    var f := Find(s, sep).value;
    assert f <= i;
    var rest := s[f + |sep|..];
    assert rest[j - f - |sep|..j - f] == s[j..j + |sep|];
    assert OccursAt(rest, sep, j - f - |sep|);
    SplitSingleIff(rest, sep);
  }

  /** The exact shape of a two-part split: the first separator sits right after `a`
      and `b` holds no further separator. */
  lemma SplitTwoIff(s: string, sep: string, a: string, b: string)
    requires |sep| > 0
    ensures Split(s, sep) == [a, b] <==>
      s == a + sep + b && !Contains(b, sep) && forall j :: 0 <= j < |a| ==> !OccursAt(s, sep, j)
  {
    if Split(s, sep) == [a, b] {
      var f := Find(s, sep).value;
      var rest := s[f + |sep|..];
      assert Split(s, sep) == [s[..f]] + Split(rest, sep);
      assert Split(rest, sep) == [b];
      assert a == s[..f];
    }
    if s == a + sep + b && !Contains(b, sep) && forall j :: 0 <= j < |a| ==> !OccursAt(s, sep, j) {
      assert s[|a|..|a| + |sep|] == sep;
      assert OccursAt(s, sep, |a|);
      var f := Find(s, sep).value;
      assert f == |a|;
      assert s[..f] == a && s[f + |sep|..] == b;
      SplitSingleIff(b, sep);
      assert Split(b, sep) == [b];
    }
  }

  const ModuleSeparator: string := "::"

  const InvalidFormatMessage: string := "Invalid module id format. Expected 'address::name'"

  datatype AccountAddress = AccountAddress(bytes: seq<byte>)

  /** A Move identifier; `Identifier::new` only builds one from valid text. */
  datatype Identifier = Identifier(text: string)

  datatype ModuleId = ModuleId(address: AccountAddress, name: Identifier)

  /** The three ways `from_str` fails; each is returned, none panics. */
  datatype ModuleIdError =
    | InvalidFormat(message: string)
    | InvalidAddress(cause: string)
    | InvalidIdentifier(text: string)

  /** `ModuleIdWrapper::from_str`. `parseAddress` stands for `AccountAddress::from_str`
      and `isValidIdentifier` for the check inside `Identifier::new`. */
  function ParseModuleId(
    s: string,
    parseAddress: string -> Result<AccountAddress, string>,
    isValidIdentifier: string -> bool
  ): (r: Result<ModuleId, ModuleIdError>)
    ensures (r.Failure? && r.error.InvalidFormat?) <==> |Split(s, ModuleSeparator)| != 2
    ensures r.Failure? && r.error.InvalidFormat? ==> r.error.message == InvalidFormatMessage
    ensures r.Success? ==>
      var parts := Split(s, ModuleSeparator);
      && |parts| == 2
      && parts[0] + ModuleSeparator + parts[1] == s
      && parseAddress(parts[0]) == Success(r.value.address)
      && r.value.name.text == parts[1]
      && isValidIdentifier(parts[1])
    ensures r.Failure? && r.error.InvalidAddress? ==>
      parseAddress(Split(s, ModuleSeparator)[0]) == Failure(r.error.cause)
    ensures r.Failure? && r.error.InvalidIdentifier? ==>
      |Split(s, ModuleSeparator)| == 2 && parseAddress(Split(s, ModuleSeparator)[0]).Success?
      && !isValidIdentifier(r.error.text) && r.error.text == Split(s, ModuleSeparator)[1]
  {
    var parts := Split(s, ModuleSeparator);
    if |parts| != 2 then Failure(InvalidFormat(InvalidFormatMessage))
    else
      assert Join(parts, ModuleSeparator) == parts[0] + ModuleSeparator + parts[1];
      match parseAddress(parts[0])
      case Failure(e) => Failure(InvalidAddress(e))
      case Success(address) =>
        if !isValidIdentifier(parts[1]) then Failure(InvalidIdentifier(parts[1]))
        else Success(ModuleId(address, Identifier(parts[1])))
  }

  /** For "a::n": parsing yields the address of `a` and the identifier `n` exactly when the
      first "::" is the one after `a` (so `a` holds none and does not end in ':'), `n` holds
      no further "::", `a` parses as an address and `n` is a valid identifier. */
  lemma ParseModuleIdSucceedsIff(
    s: string, a: string, n: string, address: AccountAddress,
    parseAddress: string -> Result<AccountAddress, string>,
    isValidIdentifier: string -> bool
  )
    requires s == a + ModuleSeparator + n
    ensures ParseModuleId(s, parseAddress, isValidIdentifier) == Success(ModuleId(address, Identifier(n))) <==>
      && (forall j :: 0 <= j < |a| ==> !OccursAt(s, ModuleSeparator, j))
      && !Contains(n, ModuleSeparator)
      && parseAddress(a) == Success(address)
      && isValidIdentifier(n)
  {
    SplitTwoIff(s, ModuleSeparator, a, n);
    var parts := Split(s, ModuleSeparator);
    if ParseModuleId(s, parseAddress, isValidIdentifier) == Success(ModuleId(address, Identifier(n))) {
      assert |parts| == 2 && parts[1] == n;
      assert parts[0] == a;
      assert parts == [a, n];
    }
  }

  /** A string without "::" is rejected with the format message. */
  lemma NoSeparatorRejected(
    s: string,
    parseAddress: string -> Result<AccountAddress, string>,
    isValidIdentifier: string -> bool
  )
    requires !Contains(s, ModuleSeparator)
    ensures ParseModuleId(s, parseAddress, isValidIdentifier) == Failure(InvalidFormat(InvalidFormatMessage))
  {
    SplitSingleIff(s, ModuleSeparator);
  }

  /** A string with two non-overlapping "::" is rejected with the format message. */
  lemma TwoSeparatorsRejected(
    s: string, i: int, j: int,
    parseAddress: string -> Result<AccountAddress, string>,
    isValidIdentifier: string -> bool
  )
    requires OccursAt(s, ModuleSeparator, i) && OccursAt(s, ModuleSeparator, j) && i + 2 <= j
    ensures ParseModuleId(s, parseAddress, isValidIdentifier) == Failure(InvalidFormat(InvalidFormatMessage))
  {
    SplitAtLeastThree(s, ModuleSeparator, i, j);
  }

  /** "0x1::m::f" names a function, not a module, and is rejected. */
  lemma FunctionPathRejected(
    parseAddress: string -> Result<AccountAddress, string>,
    isValidIdentifier: string -> bool
  )
    ensures ParseModuleId("0x1::m::f", parseAddress, isValidIdentifier) == Failure(InvalidFormat(InvalidFormatMessage))
  {
    var s := "0x1::m::f";
    assert s[3..5] == ModuleSeparator && s[6..8] == ModuleSeparator;
    TwoSeparatorsRejected(s, 3, 6, parseAddress, isValidIdentifier);
  }

  /** "a:::b" splits at the first "::" into "a" and ":b", passes the part count, and is
      left for the identifier validator to judge ":b". */
  lemma TripleColonSplit(
    parseAddress: string -> Result<AccountAddress, string>,
    isValidIdentifier: string -> bool
  )
    ensures Split("a:::b", ModuleSeparator) == ["a", ":b"]
    ensures parseAddress("a").Success? && !isValidIdentifier(":b") ==>
      ParseModuleId("a:::b", parseAddress, isValidIdentifier) == Failure(InvalidIdentifier(":b"))
  {
    var s := "a:::b";
    assert s == "a" + ModuleSeparator + ":b";
    assert !OccursAt(s, ModuleSeparator, 0) by { assert s[0..2] == "a:"; }
    assert !Contains(":b", ModuleSeparator) by {
      assert ":b"[0..2][1] != ModuleSeparator[1];
    }
    SplitTwoIff(s, ModuleSeparator, "a", ":b");
  }
}
