/** `normalize_model_name` (utils/model.py): the layer offset is applied to the number inside a dotted name. */
module LayerNames {
  import opened Wrappers

  datatype NameError = NoNumber | NotDigits

  // ---------------------------------------------------------------- dotted names

  predicate Undotted(part: string) {
    '.' !in part
  }

  /** `name.split(".")` */
  function Split(name: string): (parts: seq<string>)
    ensures parts != []
  {
    if name == "" then [""]
    else
      var rest := Split(name[1..]);
      if name[0] == '.' then [""] + rest else [[name[0]] + rest[0]] + rest[1..]
  }

  /** `".".join(parts)` */
  function Join(parts: seq<string>): string {
    if parts == [] then "" else if |parts| == 1 then parts[0] else parts[0] + "." + Join(parts[1..])
  }

  lemma {:induction false} SplitPart(part: string, rest: string)
    requires Undotted(part)
    ensures Split(part + "." + rest) == [part] + Split(rest)
    ensures Split(part) == [part]
  {
    if part == "" {
      assert "" + "." + rest == ['.'] + rest;
    } else {
      SplitPart(part[1..], rest);
      assert (part + "." + rest)[1..] == part[1..] + "." + rest;
      assert part == [part[0]] + part[1..];
    }
  }

  /** Joining undotted parts loses nothing. */
  lemma {:induction false} SplitJoin(parts: seq<string>)
    requires parts != [] && forall i :: 0 <= i < |parts| ==> Undotted(parts[i])
    ensures Split(Join(parts)) == parts
  {
    if |parts| == 1 {
      SplitPart(parts[0], "");
    } else {
      SplitJoin(parts[1..]);
      SplitPart(parts[0], Join(parts[1..]));
    }
  }

  /** `layer in name` */
  predicate Contains(name: string, part: string) {
    part <= name || (name != "" && Contains(name[1..], part))
  }

  lemma {:induction false} ContainsAfter(before: string, name: string, part: string)
    requires Contains(name, part)
    ensures Contains(before + name, part)
  {
    if before == "" {
      assert before + name == name;
    } else {
      ContainsAfter(before[1..], name, part);
      assert (before + name)[1..] == before[1..] + name;
    }
  }

  lemma {:induction false} JoinContains(parts: seq<string>, k: nat)
    requires k < |parts|
    ensures Contains(Join(parts), parts[k])
  {
    if k == 0 {
      assert parts[0] <= Join(parts);
    } else {
      JoinContains(parts[1..], k - 1);
      ContainsAfter(parts[0] + ".", Join(parts[1..]), parts[k]);
    }
  }

  // ---------------------------------------------------------------- decimal numbers

  predicate IsDigit(c: char) {
    '0' <= c <= '9'
  }

  /** `part.isdigit()` */
  predicate IsNumber(part: string) {
    part != "" && forall i :: 0 <= i < |part| ==> IsDigit(part[i])
  }

  function DigitValue(c: char): nat
    requires IsDigit(c)
  {
    c as int - '0' as int
  }

  /** `int(part)` */
  function Parse(part: string): nat
    requires forall i :: 0 <= i < |part| ==> IsDigit(part[i])
  {
    if part == "" then 0 else Parse(part[..|part| - 1]) * 10 + DigitValue(part[|part| - 1])
  }

  /** `str(n)` */
  function Print(n: nat): string {
    if n < 10 then [('0' as int + n) as char] else Print(n / 10) + [('0' as int + n % 10) as char]
  }

  lemma {:induction false} ParsePrint(n: nat)
    ensures IsNumber(Print(n)) && Undotted(Print(n)) && Parse(Print(n)) == n
  {
    var s := Print(n);
    if n < 10 {
      assert Parse(s[..0]) == 0;
    } else {
      ParsePrint(n / 10);
      assert s[..|s| - 1] == Print(n / 10);
    }
  }

  // ---------------------------------------------------------------- normalisation

  /** The first place of `part`; without one, the last place, where the scan ends. */
  function Place(parts: seq<string>, part: string, from: nat): (i: nat)
    requires from < |parts|
    ensures from <= i < |parts|
    decreases |parts| - from
  {
    if parts[from] == part || from + 1 == |parts| then from else Place(parts, part, from + 1)
  }

  function Normalized(name: string, offset: nat, layer: string): Result<string, NameError> {
    if !Contains(name, layer) then Success(name)
    else
      var parts := Split(name);
      var k := Place(parts, layer, 0) + 1;
      if |parts| < k + 1 then Failure(NoNumber)
      else if !IsNumber(parts[k]) then Failure(NotDigits)
      else Success(Join(parts[k := Print(Parse(parts[k]) + offset)]))
  }

  /** The scan for the layer, and the update of the part behind it in place. */
  method NormalizeModelName(name: string, offset: nat, layer: string) returns (r: Result<string, NameError>)
    ensures r == Normalized(name, offset, layer)
  {
    if !Contains(name, layer) { return Success(name); }
    var parts := Split(name);
    var splitName := new string[|parts|](i requires 0 <= i < |parts| => parts[i]);
    var i := 0;
    while i + 1 < splitName.Length && splitName[i] != layer
      invariant i < splitName.Length && splitName[..] == parts
      invariant Place(parts, layer, i) == Place(parts, layer, 0)
    {
      i := i + 1;
    }
    var k := i + 1;
    if splitName.Length < k + 1 { return Failure(NoNumber); }
    if !IsNumber(splitName[k]) { return Failure(NotDigits); }
    splitName[k] := Print(Parse(splitName[k]) + offset);
    assert splitName[..] == parts[k := Print(Parse(parts[k]) + offset)];
    return Success(Join(splitName[..]));
  }

  lemma {:induction false} PlaceIs(parts: seq<string>, part: string, from: nat, k: nat)
    requires from <= k < |parts| && parts[k] == part && forall i :: from <= i < k ==> parts[i] != part
    ensures Place(parts, part, from) == k
    decreases k - from
  {
    if from == k {
    } else {
      PlaceIs(parts, part, from + 1, k);
    }
  }

  /** The number behind the first `layer` component grows by the offset; every other component stays. */
  lemma {:induction false} NormalizesNumber(parts: seq<string>, k: nat, local: nat, offset: nat, layer: string)
    requires forall i :: 0 <= i < |parts| ==> Undotted(parts[i])
    requires k + 1 < |parts| && parts[k] == layer && forall i :: 0 <= i < k ==> parts[i] != layer
    ensures
      var global := parts[k + 1 := Print(local + offset)];
      && Normalized(Join(parts[k + 1 := Print(local)]), offset, layer) == Success(Join(global))
      && Split(Join(global)) == global && IsNumber(global[k + 1]) && Parse(global[k + 1]) == local + offset
  {
    var renamed, global := parts[k + 1 := Print(local)], parts[k + 1 := Print(local + offset)];
    ParsePrint(local);
    ParsePrint(local + offset);
    SplitJoin(renamed);
    SplitJoin(global);
    JoinContains(renamed, k);
    PlaceIs(renamed, layer, 0, k);
    assert renamed[k + 1 := Print(local + offset)] == global;
  }

  /** Two local layers of one parameter get one name exactly when they are one layer of the model. */
  lemma {:induction false} NamesMeet(
      parts: seq<string>, k: nat, localA: nat, offsetA: nat, localB: nat, offsetB: nat, layer: string)
    requires forall i :: 0 <= i < |parts| ==> Undotted(parts[i])
    requires k + 1 < |parts| && parts[k] == layer && forall i :: 0 <= i < k ==> parts[i] != layer
    ensures
      var a := Normalized(Join(parts[k + 1 := Print(localA)]), offsetA, layer);
      var b := Normalized(Join(parts[k + 1 := Print(localB)]), offsetB, layer);
      a.Success? && b.Success? && (a == b <==> localA + offsetA == localB + offsetB)
  {
    hide Normalized, Split, Join, Print, Parse, IsNumber;
    NormalizesNumber(parts, k, localA, offsetA, layer);
    NormalizesNumber(parts, k, localB, offsetB, layer);
  }

  // ---------------------------------------------------------------- every name

  /** `part` stands at place `i` of the name. */
  ghost predicate StandsAt(name: string, part: string, i: nat) {
    i + |part| <= |name| && name[i..i + |part|] == part
  }

  lemma TailSlice(name: string, i: nat, j: nat)
    requires i <= j < |name|
    ensures name[1..][i..j] == name[i + 1..j + 1]
  {
  }

  lemma {:induction false} ContainsExactly(name: string, part: string)
    ensures Contains(name, part) <==> exists i :: StandsAt(name, part, i)
  {
    if name == "" {
      assert StandsAt(name, part, 0) <==> part == "";
    } else {
      ContainsExactly(name[1..], part);
      assert part <= name <==> StandsAt(name, part, 0);
      forall i: nat
        ensures StandsAt(name, part, i + 1) <==> StandsAt(name[1..], part, i)
      {
        if i + 1 + |part| <= |name| { TailSlice(name, i, i + |part|); }
      }
      if Contains(name, part) && !(part <= name) {
        var i: nat :| StandsAt(name[1..], part, i);
        assert StandsAt(name, part, i + 1);
      }
      if i: nat :| StandsAt(name, part, i) {
        if i > 0 { assert StandsAt(name[1..], part, i - 1); }
      }
    }
  }

  /** Every name is the join of undotted parts. */
  lemma NothingJoined()
    ensures Join([""]) == ""
  {
  }

  lemma JoinDot(rest: seq<string>)
    requires rest != []
    ensures Join([""] + rest) == ['.'] + Join(rest)
  {
    assert ([""] + rest)[1..] == rest;
  }

  lemma JoinLonger(c: char, rest: seq<string>)
    requires rest != []
    ensures Join([[c] + rest[0]] + rest[1..]) == [c] + Join(rest)
  {
    assert ([[c] + rest[0]] + rest[1..])[1..] == rest[1..];
  }

  lemma {:induction false} JoinSplit(name: string)
    ensures Join(Split(name)) == name && forall i :: 0 <= i < |Split(name)| ==> Undotted(Split(name)[i])
  {
    hide Join;
    if name == "" {
      NothingJoined();
    } else {
      var rest := Split(name[1..]);
      JoinSplit(name[1..]);
      JoinDot(rest);
      JoinLonger(name[0], rest);
      assert name == [name[0]] + name[1..];
    }
  }

  /** Decimal numbers are written without leading zeros. */
  lemma {:induction false} PrintPlain(n: nat)
    ensures Print(n) != "" && (Print(n)[0] == '0' <==> n == 0)
  {
    if n < 10 {
    } else {
      PrintPlain(n / 10);
    }
  }

  /** The base is ten. */
  lemma {:induction false} PrintTen()
    ensures Print(10) == "10" && Print(9) == "9"
  {
    assert Print(1) == "1";
  }

  lemma {:induction false} PlaceExactly(parts: seq<string>, part: string, from: nat)
    requires from < |parts|
    ensures forall i :: from <= i < Place(parts, part, from) ==> parts[i] != part
    ensures parts[Place(parts, part, from)] != part ==> Place(parts, part, from) == |parts| - 1
    decreases |parts| - from
  {
    if parts[from] == part || from + 1 == |parts| {
    } else {
      PlaceExactly(parts, part, from + 1);
    }
  }

  /** The first component of the name that is `layer` stands at place `k`, and something stands behind it. */
  ghost predicate NumberAt(name: string, layer: string, k: nat) {
    var parts := Split(name);
    k + 1 < |parts| && parts[k] == layer && forall i :: 0 <= i < k ==> parts[i] != layer
  }

  /**
   For any name: one in which the layer does not occur stays as it is; with the layer as a component in
   front of a number the number grows; any other name is refused, also one that has the layer only inside of
   a component.
   */
  lemma {:induction false} EveryName(name: string, offset: nat, layer: string)
    ensures (forall i :: !StandsAt(name, layer, i)) ==> Normalized(name, offset, layer) == Success(name)
    ensures Normalized(name, offset, layer) == Failure(NoNumber) <==>
      (exists i :: StandsAt(name, layer, i)) && forall k :: !NumberAt(name, layer, k)
    ensures forall k :: NumberAt(name, layer, k) ==>
      Normalized(name, offset, layer) ==
      var part := Split(name)[k + 1];
      if part == "" || exists i :: 0 <= i < |part| && !('0' <= part[i] <= '9') then Failure(NotDigits)
      else Success(Join(Split(name)[k + 1 := Print(Parse(part) + offset)]))
  {
    ContainsExactly(name, layer);
    JoinSplit(name);
    var parts := Split(name);
    PlaceExactly(parts, layer, 0);
    hide Split, Join, Place, Contains, StandsAt, Print, Parse;
    forall k | NumberAt(name, layer, k)
      ensures k == Place(parts, layer, 0) && Contains(name, layer)
    {
      JoinContains(parts, k);
      PlaceIs(parts, layer, 0, k);
    }
    var k := Place(parts, layer, 0);
    assert k + 1 < |parts| ==> NumberAt(name, layer, k);
  }
}
