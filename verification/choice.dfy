/** The selector's prompt (`giveChoice`) without its terminal: the menu it
    prints and the decision it takes on the line read back. The line is an
    input; reading it is not modelled. */
module Choice {
  import opened Ec2
  import opened Text
  import opened Filter

  /** What the prompt decides: the position of the chosen instance, or the
      "Bad input" exit. */
  datatype Selection = Picked(index: nat) | BadInput

  /** The menu line for position `idx`: `[idx] <Name tag> <private address>`. */
  function MenuLine(filtered: seq<Instance>, idx: nat): string
    requires idx < |filtered|
  {
    "[" + FormatInt(idx) + "] " + InstanceTag(filtered[idx], "Name") + " " + filtered[idx].privateIp
  }

  /** The printing loop of the menu from position `k` on: one line per
      remaining candidate. */
  function MenuFrom(filtered: seq<Instance>, k: nat): (lines: seq<string>)
    requires k <= |filtered|
    ensures |lines| == |filtered| - k
    ensures forall j :: 0 <= j < |lines| ==> lines[j] == MenuLine(filtered, k + j)
    decreases |filtered| - k
  {
    if k == |filtered| then []
    else [MenuLine(filtered, k)] + MenuFrom(filtered, k + 1)
  }

  /** The whole menu, one line per candidate, in candidate order. */
  function Menu(filtered: seq<Instance>): (lines: seq<string>)
    ensures |lines| == |filtered|
    ensures forall k :: 0 <= k < |filtered| ==> lines[k] == MenuLine(filtered, k)
  {
    MenuFrom(filtered, 0)
  }

  /** `giveChoice` after the line is read: white space is trimmed; nothing
      left selects the first candidate; otherwise the text must be a decimal
      integer naming a position in the list. `giveChoice` indexes
      `filtered[0]` unconditionally, so it needs at least one candidate. */
  function ResolveChoice(filtered: seq<Instance>, line: string): (c: Selection)
    requires |filtered| >= 1
    ensures c.Picked? ==> c.index < |filtered|
    ensures AllSpace(line) ==> c == Picked(0)
    ensures !AllSpace(line) && Atoi(TrimSpace(line)).Some? &&
            0 <= Atoi(TrimSpace(line)).value < |filtered| ==>
              c == Picked(Atoi(TrimSpace(line)).value)
    ensures c == BadInput <==>
              !AllSpace(line) &&
              forall n :: Atoi(TrimSpace(line)) == Some(n) ==> !(0 <= n < |filtered|)
  {
    TrimSpaceSpec(line);
    var choice := TrimSpace(line);
    if choice == "" then Picked(0)
    else
      match Atoi(choice)
      case None => BadInput
      case Some(idx) => if idx < 0 || idx > |filtered| - 1 then BadInput else Picked(idx)
  }

  /** The chosen instance, when there is one, is the candidate at the
      selected position. */
  function Chosen(filtered: seq<Instance>, line: string): (r: Option<Instance>)
    requires |filtered| >= 1
    ensures r.Some? <==> ResolveChoice(filtered, line).Picked?
    ensures r.Some? ==> r.value in filtered
    ensures r.Some? ==> r.value == filtered[ResolveChoice(filtered, line).index]
  {
    match ResolveChoice(filtered, line)
    case Picked(idx) => Some(filtered[idx])
    case BadInput => None
  }

  /** Typing back the number shown at the head of a menu line, with any white
      space around it (the line feed the terminal sends, say), selects that line. */
  lemma MenuRoundTrip(filtered: seq<Instance>, k: nat, before: string, after: string)
    requires k < |filtered|
    requires AllSpace(before) && AllSpace(after)
    ensures Menu(filtered)[k][..|FormatInt(k)| + 1] == "[" + FormatInt(k)
    ensures ResolveChoice(filtered, before + FormatInt(k) + after) == Picked(k)
  {
    var line := before + FormatInt(k) + after;
    FormatIntTrimmed(k);
    TrimSpacePadded(before, FormatInt(k), after);
    AtoiFormatInt(k);
    assert !AllSpace(line) by {
      assert line[|before|] == FormatInt(k)[0];
    }
  }

  /** A number outside the list is refused, negative ones included. */
  lemma OutOfRangeIsBadInput(filtered: seq<Instance>, n: int)
    requires |filtered| >= 1
    requires n < 0 || n >= |filtered|
    ensures ResolveChoice(filtered, FormatInt(n)) == BadInput
  {
    FormatIntTrimmed(n);
    TrimSpacePadded("", FormatInt(n), "");
    assert "" + FormatInt(n) + "" == FormatInt(n);
    AtoiFormatInt(n);
    assert !AllSpace(FormatInt(n)) by {
      assert !IsSpace(FormatInt(n)[0]);
    }
  }

  /** Three sample lines with three candidates: an empty line picks the
      first, "2" the third, "99" is refused. */
  lemma ChoiceExamples(a: Instance, b: Instance, c: Instance)
    ensures ResolveChoice([a, b, c], "\n") == Picked(0)
    ensures ResolveChoice([a, b, c], "2\n") == Picked(2)
    ensures Chosen([a, b, c], "2\n") == Some(c)
    ensures ResolveChoice([a, b, c], "99") == BadInput
  {
    BlankLineExample([a, b, c]);
    TwoExample([a, b, c]);
    NinetyNineExample([a, b, c]);
  }

  lemma BlankLineExample(filtered: seq<Instance>)
    requires |filtered| >= 1
    ensures ResolveChoice(filtered, "\n") == Picked(0)
  {
    assert AllSpace("\n");
  }

  lemma TwoExample(filtered: seq<Instance>)
    requires |filtered| == 3
    ensures ResolveChoice(filtered, "2\n") == Picked(2)
  {
    assert FormatInt(2) == "2";
    MenuRoundTrip(filtered, 2, "", "\n");
    assert "" + "2" + "\n" == "2\n";
  }

  /** `strconv.Atoi` also accepts a sign and leading zeros: ` +02` followed
      by a line feed picks the third of three candidates. */
  lemma SignedZeroPaddedExample(filtered: seq<Instance>)
    requires |filtered| == 3
    ensures ResolveChoice(filtered, " +02\n") == Picked(2)
  {
    var typed := "+02";
    assert IsTrimmed(typed) && AllSpace(" ") && AllSpace("\n");
    TrimSpacePadded(" ", typed, "\n");
    assert " " + typed + "\n" == " +02\n";
    var digits := typed[1..];
    assert digits == "02" && digits[..1] == "0" && "0"[..0] == [];
    assert AllDigits(digits) && DigitsValue(digits) == 2;
    assert Atoi(typed) == Some(2);
    assert !AllSpace(" +02\n") by {
      assert !IsSpace(" +02\n"[1]);
    }
  }

  lemma NinetyNineExample(filtered: seq<Instance>)
    requires |filtered| == 3
    ensures ResolveChoice(filtered, "99") == BadInput
  {
    assert FormatInt(99) == "99";
    OutOfRangeIsBadInput(filtered, 99);
  }
}
