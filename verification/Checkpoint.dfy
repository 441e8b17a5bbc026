/** Checkpoint names and `get_last_checkpoint`. */
module Checkpoint {
  import opened Prelude
  import D = Decimal

  // ---------------------------------------------------------------- names

  /** `f"epoch_{epoch}_step_{step}"`. */
  function Name(epoch: nat, step: nat): string {
    "epoch_" + D.Print(epoch) + "_step_" + D.Print(step)
  }

  predicate StartsWith(s: string, prefix: string) {
    |prefix| <= |s| && s[..|prefix|] == prefix
  }

  /** `$` also matches before a final newline. */
  function DropNewline(s: string): string {
    if s != [] && s[|s| - 1] == '\n' then s[..|s| - 1] else s
  }

  /** A nonempty run of digits up to the end. */
  function ParseNumber(s: string): Option<nat> {
    if s != [] && D.AllDigits(s) then Some(D.Value(s)) else None
  }

  /** `(?:_step_(\d+))?$`; a missing step counts as 0. */
  function ParseStep(s: string): Option<nat> {
    if s == [] then Some(0) else if StartsWith(s, "_step_") then ParseNumber(s[6..]) else None
  }

  /** `^epoch_(\d+)(?:_step_(\d+))?$`. */
  function Parse(name: string): Option<(nat, nat)> {
    ParseBody(DropNewline(name))
  }

  function ParseBody(s: string): Option<(nat, nat)> {
    if !StartsWith(s, "epoch_") then None
    else
      var rest := s[6..];
      var k := D.Leading(rest);
      if k == 0 then None
      else match ParseStep(rest[k..])
        case None => None
        case Some(step) => Some((D.Value(rest[..k]), step))
  }

  /** What the pattern means: the name is a prefix, digits, an optional step with digits, and perhaps a final
      newline. */
  ghost predicate Matches(name: string, epochDigits: string, stepPart: string, newline: string) {
    && (newline == "" || newline == "\n")
    && name == "epoch_" + epochDigits + stepPart + newline
    && epochDigits != [] && D.AllDigits(epochDigits)
    && (stepPart == [] || exists d: string :: d != [] && D.AllDigits(d) && stepPart == "_step_" + d)
  }

  ghost predicate StepIs(stepPart: string, step: nat) {
    if stepPart == [] then step == 0
    else exists d: string :: d != [] && D.AllDigits(d) && stepPart == "_step_" + d && step == D.Value(d)
  }

  lemma DropNewlineIs(body: string, newline: string)
    requires newline == "" || newline == "\n"
    requires body != [] && body[|body| - 1] != '\n'
    ensures DropNewline(body + newline) == body
  {
    if newline == "\n" {
      assert (body + newline)[..|body|] == body;
    } else {
      assert body + newline == body;
    }
  }

  /** The step part is read as the number it shows. */
  lemma ParseStepIs(d: string)
    requires d != [] && D.AllDigits(d)
    ensures ParseStep("_step_" + d) == Some(D.Value(d))
  {
    var s := "_step_" + d;
    assert s[..6] == "_step_";
    assert s[6..] == d;
  }

  lemma ParseStepComplete(stepPart: string, step: nat)
    requires StepIs(stepPart, step)
    ensures ParseStep(stepPart) == Some(step)
  {
    if stepPart != [] {
      var d: string :| d != [] && D.AllDigits(d) && stepPart == "_step_" + d && step == D.Value(d);
      ParseStepIs(d);
    }
  }

  lemma ParseBodyIs(epochDigits: string, stepPart: string)
    requires epochDigits != [] && D.AllDigits(epochDigits) && (stepPart != [] ==> !D.IsDigit(stepPart[0]))
          && ParseStep(stepPart).Some?
    ensures ParseBody("epoch_" + (epochDigits + stepPart)) == Some((D.Value(epochDigits), ParseStep(stepPart).value))
  {
    var rest := epochDigits + stepPart;
    var body := "epoch_" + rest;
    assert body[..6] == "epoch_" && body[6..] == rest;
    D.LeadingIs(epochDigits, stepPart);
  }

  /** A name of the pattern's shape is recognised and read as the numbers it shows. */
  lemma ParseComplete(name: string, epochDigits: string, stepPart: string, newline: string, step: nat)
    requires Matches(name, epochDigits, stepPart, newline) && StepIs(stepPart, step)
    ensures Parse(name) == Some((D.Value(epochDigits), step))
  {
    var body := "epoch_" + (epochDigits + stepPart);
    assert name == body + newline;
    LastIsNotNewline(epochDigits, stepPart);
    DropNewlineIs(body, newline);
    ParseStepComplete(stepPart, step);
    ParseBodyIs(epochDigits, stepPart);
  }

  lemma LastIsNotNewline(epochDigits: string, stepPart: string)
    requires epochDigits != [] && D.AllDigits(epochDigits)
    requires stepPart == [] || exists d: string :: d != [] && D.AllDigits(d) && stepPart == "_step_" + d
    ensures var body := "epoch_" + (epochDigits + stepPart); body != [] && body[|body| - 1] != '\n'
  {
    var body := "epoch_" + (epochDigits + stepPart);
    if stepPart == [] {
      assert body[|body| - 1] == epochDigits[|epochDigits| - 1];
    } else {
      var d: string :| d != [] && D.AllDigits(d) && stepPart == "_step_" + d;
      assert body[|body| - 1] == d[|d| - 1];
    }
  }

  /** Whatever is recognised has the pattern's shape and shows those numbers. */
  lemma ParseSound(name: string) returns (epochDigits: string, stepPart: string, newline: string)
    requires Parse(name).Some?
    ensures Matches(name, epochDigits, stepPart, newline)
    ensures Parse(name).value.0 == D.Value(epochDigits) && StepIs(stepPart, Parse(name).value.1)
  {
    var s := DropNewline(name);
    newline := name[|s|..];
    assert name == s + newline;
    epochDigits, stepPart := ParseBodySound(s);
    assert s + newline == "epoch_" + epochDigits + stepPart + newline;
  }

  lemma ParseBodySound(s: string) returns (epochDigits: string, stepPart: string)
    requires ParseBody(s).Some?
    ensures s == "epoch_" + epochDigits + stepPart
    ensures epochDigits != [] && D.AllDigits(epochDigits)
    ensures ParseBody(s).value.0 == D.Value(epochDigits) && StepIs(stepPart, ParseBody(s).value.1)
  {
    var rest := s[6..];
    var k := D.Leading(rest);
    epochDigits, stepPart := rest[..k], rest[k..];
    BodyParts(s, rest, k, epochDigits, stepPart);
    StepSound(stepPart);
  }

  lemma BodyParts(s: string, rest: string, k: nat, epochDigits: string, stepPart: string)
    requires StartsWith(s, "epoch_") && rest == s[6..] && k <= |rest| && epochDigits == rest[..k]
          && stepPart == rest[k..]
    ensures s == "epoch_" + epochDigits + stepPart
  {
    assert rest == epochDigits + stepPart;
    assert s == "epoch_" + rest;
  }

  lemma StepSound(stepPart: string)
    requires ParseStep(stepPart).Some?
    ensures StepIs(stepPart, ParseStep(stepPart).value)
  {
    if stepPart != [] {
      assert stepPart == "_step_" + stepPart[6..];
    }
  }

  /** Exactly the names of the pattern's shape are recognised, with exactly the numbers they show. */
  lemma ParseIff(name: string, epoch: nat, step: nat)
    ensures Parse(name) == Some((epoch, step)) <==>
            exists digits: string, stepPart: string, newline: string ::
              Matches(name, digits, stepPart, newline) && D.Value(digits) == epoch && StepIs(stepPart, step)
  {
    if Parse(name) == Some((epoch, step)) {
      var digits, stepPart, newline := ParseSound(name);
    }
    forall digits: string, stepPart: string, newline: string |
      Matches(name, digits, stepPart, newline) && D.Value(digits) == epoch && StepIs(stepPart, step)
      ensures Parse(name) == Some((epoch, step))
    {
      ParseComplete(name, digits, stepPart, newline, step);
    }
  }

  /** The parsed name inverts the printed one. */
  lemma ParseName(epoch: nat, step: nat)
    ensures Parse(Name(epoch, step)) == Some((epoch, step))
  {
    var d := D.Print(step);
    D.ValuePrint(epoch);
    D.ValuePrint(step);
    assert Name(epoch, step) == "epoch_" + D.Print(epoch) + ("_step_" + d) + "";
    assert StepIs("_step_" + d, step);
    ParseComplete(Name(epoch, step), D.Print(epoch), "_step_" + d, "", step);
  }

  // ---------------------------------------------------------------- the last checkpoint

  datatype Entry = Entry(name: string, isDir: bool)

  predicate IsCheckpoint(e: Entry) {
    e.isDir && Parse(e.name).Some?
  }

  /** Tuples compare by epoch, then by step. */
  predicate AtMost(a: (nat, nat), b: (nat, nat)) {
    a.0 < b.0 || (a.0 == b.0 && a.1 <= b.1)
  }

  /** The sort key of an entry that is a checkpoint. */
  function KeyOf(e: Entry): Option<(nat, nat)> {
    if e.isDir then Parse(e.name) else None
  }

  /** Index of the first of the greatest keys. */
  function FirstGreatest(keys: seq<Option<(nat, nat)>>): (r: Option<nat>)
    ensures r == None <==> forall i :: 0 <= i < |keys| ==> keys[i] == None
    ensures r.Some? ==> r.value < |keys| && keys[r.value].Some?
    ensures r.Some? ==> forall i :: 0 <= i < |keys| && keys[i].Some? ==> AtMost(keys[i].value, keys[r.value].value)
    ensures r.Some? ==> forall i :: 0 <= i < r.value && keys[i].Some? ==> keys[i] != keys[r.value]
  {
    if keys == [] then None
    else
      var n := |keys| - 1;
      var best := FirstGreatest(keys[..n]);
      if keys[n] == None then best
      else if best == None || !AtMost(keys[n].value, keys[best.value].value) then Some(n)
      else best
  }

  function KeysOf(content: seq<Entry>): (keys: seq<Option<(nat, nat)>>)
    ensures |keys| == |content| && forall i {:trigger keys[i]} :: 0 <= i < |keys| ==> keys[i] == KeyOf(content[i])
  {
    seq(|content|, i requires 0 <= i < |content| => KeyOf(content[i]))
  }

  /** The name stands at `i`, and no checkpoint before it shows the same numbers. */
  ghost predicate FirstListed(content: seq<Entry>, name: string, i: nat)
    requires i < |content|
  {
    && content[i] == Entry(name, true)
    && forall j :: 0 <= j < i && IsCheckpoint(content[j]) ==> Parse(content[j].name) != Parse(name)
  }

  /** `max(checkpoints, key=sort_key)`: the first entry with the greatest key. */
  function LastCheckpoint(content: seq<Entry>): (r: Option<string>)
    ensures r == None <==> forall e :: e in content ==> !IsCheckpoint(e)
    ensures r.Some? ==> Entry(r.value, true) in content && Parse(r.value).Some?
    ensures r.Some? ==> forall e :: e in content && IsCheckpoint(e) ==>
              AtMost(Parse(e.name).value, Parse(r.value).value)
    // of several names for the same numbers, the first listed
    ensures r.Some? ==> exists i :: 0 <= i < |content| && FirstListed(content, r.value, i)
  {
    var keys := KeysOf(content);
    var best := FirstGreatest(keys);
    assert forall i :: 0 <= i < |content| ==> (keys[i].Some? <==> IsCheckpoint(content[i]));
    if best == None then None
    else
      assert IsCheckpoint(content[best.value]);
      assert FirstListed(content, content[best.value].name, best.value);
      Some(content[best.value].name)
  }
}
