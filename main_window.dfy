/** The main window's two non-graphical duties: reading a signal file into
    samples (open_file) and changing the heart rate of the displayed cycle
    (update_fh). */
module Shell {
  import opened Common
  import opened SampleGrid
  import opened Cycle

  // ---------------------------------------------------------------------
  // String operations of open_file

  /** `s.replace(c, '')`: s with every c removed. */
  function DeleteChar(s: string, c: char): (r: string)
    ensures c !in r && |r| <= |s|
  {
    if |s| == 0 then ""
    else if s[0] == c then DeleteChar(s[1..], c)
    else [s[0]] + DeleteChar(s[1..], c)
  }

  /** Removing a character that does not occur changes nothing. */
  lemma {:induction false} DeleteAbsent(s: string, c: char)
    requires c !in s
    ensures DeleteChar(s, c) == s
  {
    if |s| > 0 {
      assert c !in s[1..];
      DeleteAbsent(s[1..], c);
    }
  }

  /** Removal commutes with concatenation. */
  lemma {:induction false} DeleteAppend(s: string, t: string, c: char)
    ensures DeleteChar(s + t, c) == DeleteChar(s, c) + DeleteChar(t, c)
  {
    if |s| > 0 {
      assert (s + t)[1..] == s[1..] + t;
      DeleteAppend(s[1..], t, c);
    } else {
      assert s + t == t;
    }
  }

  /** `s.split(sep)`: the pieces between consecutive separators, including
      the empty ones before, between and after separators; one piece more
      than there are separators. */
  function Split(s: string, sep: char): (r: seq<string>)
    ensures |r| >= 1
    ensures forall i :: 0 <= i < |r| ==> sep !in r[i]
  {
    if |s| == 0 then [""]
    else
      var rest := Split(s[1..], sep);
      if s[0] == sep then [""] + rest
      else [[s[0]] + rest[0]] + rest[1..]
  }

  /** `sep.join(ps)`. */
  function Join(ps: seq<string>, sep: char): string
    requires |ps| >= 1
  {
    if |ps| == 1 then ps[0] else ps[0] + [sep] + Join(ps[1..], sep)
  }

  /** The concatenation of the pieces. */
  function Concat(ps: seq<string>): string
  {
    if |ps| == 0 then "" else ps[0] + Concat(ps[1..])
  }

  lemma {:induction false} JoinCons(c: char, ps: seq<string>, sep: char)
    requires |ps| >= 1
    ensures Join([[c] + ps[0]] + ps[1..], sep) == [c] + Join(ps, sep)
  {
    var qs := [[c] + ps[0]] + ps[1..];
    assert qs[1..] == ps[1..];
  }

  /** Joining the pieces of a split with the same separator restores the
      string. */
  lemma {:induction false} SplitJoin(s: string, sep: char)
    ensures Join(Split(s, sep), sep) == s
  {
    if |s| > 0 {
      var rest := Split(s[1..], sep);
      SplitJoin(s[1..], sep);
      if s[0] == sep {
        assert ([""] + rest)[1..] == rest;
        assert s == [sep] + s[1..];
      } else {
        JoinCons(s[0], rest, sep);
        assert s == [s[0]] + s[1..];
      }
    }
  }

  /** A prefix without separators becomes the start of the first piece. */
  lemma {:induction false} SplitPrefix(x: string, t: string, sep: char)
    requires sep !in x
    ensures Split(x + t, sep) == [x + Split(t, sep)[0]] + Split(t, sep)[1..]
  {
    if |x| > 0 {
      assert (x + t)[1..] == x[1..] + t;
      assert sep !in x[1..];
      SplitPrefix(x[1..], t, sep);
      assert [x[0]] + (x[1..] + Split(t, sep)[0]) == x + Split(t, sep)[0];
    } else {
      assert x + t == t;
      assert x + Split(t, sep)[0] == Split(t, sep)[0];
      assert [Split(t, sep)[0]] + Split(t, sep)[1..] == Split(t, sep);
    }
  }

  /** Splitting pieces without separators, joined by the separator, gives
      the pieces back. */
  lemma {:induction false} JoinSplit(ps: seq<string>, sep: char)
    requires |ps| >= 1 && forall i :: 0 <= i < |ps| ==> sep !in ps[i]
    ensures Split(Join(ps, sep), sep) == ps
  {
    if |ps| == 1 {
      SplitPrefix(ps[0], "", sep);
      assert ps[0] + "" == ps[0];
      assert [ps[0] + ""] == ps;
    } else {
      var tail := Join(ps[1..], sep);
      JoinSplit(ps[1..], sep);
      assert Join(ps, sep) == ps[0] + ([sep] + tail);
      SplitPrefix(ps[0], [sep] + tail, sep);
      assert ([sep] + tail)[1..] == tail;
      assert ps[0] + "" == ps[0];
      assert ps == [ps[0]] + ps[1..];
    }
  }

  /** Splitting only removes the separators. */
  lemma {:induction false} ConcatSplit(s: string, sep: char)
    ensures Concat(Split(s, sep)) == DeleteChar(s, sep)
  {
    if |s| > 0 {
      var rest := Split(s[1..], sep);
      ConcatSplit(s[1..], sep);
      if s[0] == sep {
        assert ([""] + rest)[1..] == rest;
      } else {
        var qs := [[s[0]] + rest[0]] + rest[1..];
        assert qs[1..] == rest[1..];
        assert Concat(rest) == rest[0] + Concat(rest[1..]);
      }
    }
  }

  /** `[s for s in ps if s != '']`. */
  function DropEmpty(ps: seq<string>): (r: seq<string>)
    ensures |r| <= |ps|
    ensures forall i :: 0 <= i < |r| ==> r[i] != ""
  {
    if |ps| == 0 then []
    else if ps[0] == "" then DropEmpty(ps[1..])
    else [ps[0]] + DropEmpty(ps[1..])
  }

  /** Dropping empty pieces keeps the others in their order: it distributes
      over concatenation and keeps a list without empty pieces as it is. */
  lemma {:induction false} DropEmptyAppend(ps: seq<string>, qs: seq<string>)
    ensures DropEmpty(ps + qs) == DropEmpty(ps) + DropEmpty(qs)
  {
    if |ps| > 0 {
      assert (ps + qs)[1..] == ps[1..] + qs;
      DropEmptyAppend(ps[1..], qs);
    } else {
      assert ps + qs == qs;
    }
  }

  lemma {:induction false} DropEmptyKeeps(ps: seq<string>)
    requires forall i :: 0 <= i < |ps| ==> ps[i] != ""
    ensures DropEmpty(ps) == ps
  {
    if |ps| > 0 {
      DropEmptyKeeps(ps[1..]);
    }
  }

  /** Empty pieces contribute nothing to the concatenation. */
  lemma {:induction false} ConcatDropEmpty(ps: seq<string>)
    ensures Concat(DropEmpty(ps)) == Concat(ps)
  {
    if |ps| > 0 {
      ConcatDropEmpty(ps[1..]);
      if ps[0] != "" {
        assert ([ps[0]] + DropEmpty(ps[1..]))[1..] == DropEmpty(ps[1..]);
      }
    }
  }

  /** `[s.replace(' ', '') for s in ps]`. */
  function StripSpaces(ps: seq<string>): (r: seq<string>)
    ensures |r| == |ps|
  {
    seq(|ps|, i requires 0 <= i < |ps| => DeleteChar(ps[i], ' '))
  }

  /** The pieces of a split at single spaces hold no space, so stripping
      them again changes nothing. */
  lemma StripAfterSplit(s: string)
    ensures StripSpaces(Split(s, ' ')) == Split(s, ' ')
  {
    var ps := Split(s, ' ');
    forall i | 0 <= i < |ps|
      ensures DeleteChar(ps[i], ' ') == ps[i]
    {
      DeleteAbsent(ps[i], ' ');
    }
  }

  /** The tokens of a signal file: newlines deleted, then the text split at
      single spaces, each piece stripped of spaces and the empty pieces
      dropped. */
  function Tokens(data: string): seq<string>
  {
    DropEmpty(StripSpaces(Split(DeleteChar(data, '\n'), ' ')))
  }

  /** A character missing from the string is missing from every piece. */
  lemma {:induction false} SplitWithout(s: string, sep: char, c: char)
    requires c !in s
    ensures forall i :: 0 <= i < |Split(s, sep)| ==> c !in Split(s, sep)[i]
  {
    if |s| > 0 {
      assert c !in s[1..];
      SplitWithout(s[1..], sep, c);
    }
  }

  /** Every kept piece is one of the pieces. */
  lemma {:induction false} DropEmptyFrom(ps: seq<string>)
    ensures forall i :: 0 <= i < |DropEmpty(ps)| ==> DropEmpty(ps)[i] in ps
  {
    if |ps| > 0 {
      DropEmptyFrom(ps[1..]);
      forall i | 0 <= i < |DropEmpty(ps)|
        ensures DropEmpty(ps)[i] in ps
      {
        if ps[0] != "" && i > 0 {
          assert DropEmpty(ps)[i] == DropEmpty(ps[1..])[i - 1];
        }
      }
    }
  }

  /** No token is empty or holds a space or a newline. */
  lemma TokensAreWords(data: string)
    ensures forall i :: 0 <= i < |Tokens(data)| ==>
      Tokens(data)[i] != "" && ' ' !in Tokens(data)[i] && '\n' !in Tokens(data)[i]
  {
    var lines := DeleteChar(data, '\n');
    var ps := Split(lines, ' ');
    StripAfterSplit(lines);
    SplitWithout(lines, ' ', '\n');
    DropEmptyFrom(ps);
  }

  /** Tokens lose only the spaces and newlines: their concatenation is the
      file's text without them. */
  lemma TokensConcat(data: string)
    ensures Concat(Tokens(data)) == DeleteChar(DeleteChar(data, '\n'), ' ')
  {
    var lines := DeleteChar(data, '\n');
    StripAfterSplit(lines);
    ConcatDropEmpty(Split(lines, ' '));
    ConcatSplit(lines, ' ');
  }

  /** Words written with single spaces between them read back as the same
      tokens, in order. */
  lemma TokensOfJoined(ws: seq<string>)
    requires |ws| >= 1
    requires forall i :: 0 <= i < |ws| ==> ws[i] != "" && ' ' !in ws[i] && '\n' !in ws[i]
    ensures Tokens(Join(ws, ' ')) == ws
  {
    JoinWithout(ws, ' ', '\n');
    DeleteAbsent(Join(ws, ' '), '\n');
    JoinSplit(ws, ' ');
    StripAfterSplit(Join(ws, ' '));
    DropEmptyKeeps(ws);
  }

  lemma {:induction false} JoinWithout(ps: seq<string>, sep: char, c: char)
    requires |ps| >= 1 && sep != c && forall i :: 0 <= i < |ps| ==> c !in ps[i]
    ensures c !in Join(ps, sep)
  {
    if |ps| > 1 {
      JoinWithout(ps[1..], sep, c);
    }
  }

  /** A newline is deleted, not treated as a separator: the two digits
      around it form one token. */
  lemma NewlineJoinsDigits()
    ensures Tokens("1\n2") == ["12"]
  {
    assert DeleteChar("1\n2", '\n') == "12";
    assert Split("12", ' ') == ["12"];
    DeleteAbsent("12", ' ');
    assert StripSpaces(["12"]) == ["12"];
  }

  /** Python's `" 7  8 ".split(' ')`: an empty piece at either end and one
      between the two spaces. */
  lemma SplitSpaced()
    ensures Split(" 7  8 ", ' ') == ["", "7", "", "8", ""]
  {
    assert " 7  8 "[1..] == "7  8 " && "7  8 "[1..] == "  8 " && "  8 "[1..] == " 8 ";
    assert " 8 "[1..] == "8 " && "8 "[1..] == " " && " "[1..] == "";
    assert Split(" ", ' ') == ["", ""];
    assert ['8'] + "" == "8" && ['7'] + "" == "7";
    assert Split("8 ", ' ') == ["8", ""];
    assert Split(" 8 ", ' ') == ["", "8", ""];
    assert Split("  8 ", ' ') == ["", "", "8", ""];
    assert Split("7  8 ", ' ') == ["7", "", "8", ""];
  }

  /** Runs of spaces and spaces at either end give no tokens. */
  lemma RepeatedSpacesIgnored()
    ensures Tokens(" 7  8 ") == ["7", "8"]
  {
    DeleteAbsent(" 7  8 ", '\n');
    SplitSpaced();
    DeleteAbsent("7", ' ');
    DeleteAbsent("8", ' ');
    assert StripSpaces(["", "7", "", "8", ""]) == ["", "7", "", "8", ""];
  }

  // ---------------------------------------------------------------------
  // Conversion of open_file

  /** `np.asarray(tokens).astype(float) / 10000`: parse is the string to
      number conversion; one token it rejects raises ValueError. */
  function ParseAll(tokens: seq<string>, parse: string -> Option<real>): (r: Result<seq<real>>)
    ensures r.Ok? <==> forall i :: 0 <= i < |tokens| ==> parse(tokens[i]).Some?
    ensures r.Err? ==> r.error == ValueError
    ensures r.Ok? ==> (|r.value| == |tokens|
      && forall i :: 0 <= i < |tokens| ==> r.value[i] == parse(tokens[i]).value / 10000.0)
  {
    if |tokens| == 0 then Ok([])
    else match parse(tokens[0])
      case None => Err(ValueError)
      case Some(v) =>
        match ParseAll(tokens[1..], parse)
        case Err(e) => Err(e)
        case Ok(vs) => Ok([v / 10000.0] + vs)
  }

  /** open_file: a cancelled dialog gives None; otherwise the file's text
      (read by the caller) becomes one sample per token, scaled by 1/10000,
      or ValueError when a token is not a number. */
  function OpenFile(dialog: Option<string>, parse: string -> Option<real>): (r: Result<Option<seq<real>>>)
    ensures dialog.None? <==> r == Ok(None)
    ensures dialog.Some? ==>
      var ts := Tokens(dialog.value);
      && (r.Ok? <==> forall i :: 0 <= i < |ts| ==> parse(ts[i]).Some?)
      && (r.Err? ==> r.error == ValueError)
      && (r.Ok? ==> (r.value.Some? && |r.value.value| == |ts|
            && forall i :: 0 <= i < |ts| ==> r.value.value[i] == parse(ts[i]).value / 10000.0))
  {
    match dialog
    case None => Ok(None)
    case Some(data) =>
      match ParseAll(Tokens(data), parse)
      case Err(e) => Err(e)
      case Ok(vs) => Ok(Some(vs))
  }

  // ---------------------------------------------------------------------
  // Heart-rate change

  /** Rescaling every pulse keeps each of them long. */
  lemma NormalizedAllLong(ws: seq<Wave>, fh: real, fhNew: real)
    requires LongPrefix(ws) == |ws| && fhNew != 0.0
    ensures LongPrefix(Normalized(ws, |ws|, fh, fhNew)) == |ws|
  {
    var r := Normalized(ws, |ws|, fh, fhNew);
    forall j | 0 <= j < |ws|
      ensures |r[j].params| >= 8
    {
      NormalizedAt(ws, |ws|, fh, fhNew, j);
    }
    AllLongPrefix(r);
  }

  lemma {:induction false} AllLongPrefix(ws: seq<Wave>)
    requires forall j :: 0 <= j < |ws| ==> |ws[j].params| >= 8
    ensures LongPrefix(ws) == |ws|
  {
    if |ws| > 0 {
      AllLongPrefix(ws[1..]);
    }
  }

  /** Whether the slider ranges of pulse `active` can be computed: its name
      is in the dictionary with the mean and both spreads, and its
      neighbours' limits exist. */
  predicate SlidersFit(ws: seq<Wave>, n: nat, active: string)
    requires n >= 1
  {
    IndexOf(ws, active).Some? && |ws[IndexOf(ws, active).value].params| >= 4 && TLims(ws, n, active).Ok?
  }

  /** The first failure among searches run in order, as raising stops at
      the first; none of them changes anything, so running the later ones
      anyway is not observable. */
  function FirstError(rs: seq<Result<(int, int)>>): (r: Result<()>)
    ensures r.Ok? <==> forall i :: 0 <= i < |rs| ==> rs[i].Ok?
    ensures r.Err? ==> exists i :: 0 <= i < |rs| && rs[i] == Err(r.error) && forall j :: 0 <= j < i ==> rs[j].Ok?
  {
    if |rs| == 0 then Ok(())
    else if rs[0].Err? then Err(rs[0].error)
    else FirstError(rs[1..])
  }

  class MainWindow {
    /** The cycle on display; its wave dictionary is shared with the
        sequence window. */
    var ecgCycle: CycleModel

    ghost predicate Valid()
      reads this, ecgCycle, ecgCycle.waves
    {
      ecgCycle.Valid()
    }

    constructor (cycle: CycleModel)
      requires cycle.Valid()
      ensures Valid() && ecgCycle == cycle
    {
      ecgCycle := cycle;
    }

    /** update_sliders: the ranges of the mean and spread sliders of the
        active pulse; the first search that raises ends it. The mean's
        search reads the most slots, so its error is the one raised: a
        missing name, a pulse without both spreads, or a missing neighbour
        limit. */
    method UpdateSliders(active: string) returns (r: Result<()>)
      requires Valid()
      ensures r.Ok? <==> SlidersFit(ecgCycle.waves.entries, ecgCycle.n, active)
      ensures var ws, n := ecgCycle.waves.entries, ecgCycle.n;
        && (IndexOf(ws, active).None? ==> r == Err(KeyError))
        && (IndexOf(ws, active).Some? && |ws[IndexOf(ws, active).value].params| < 4 ==> r == Err(IndexError))
        && (IndexOf(ws, active).Some? && |ws[IndexOf(ws, active).value].params| >= 4 && TLims(ws, n, active).Err? ==>
              r == Err(TLims(ws, n, active).error))
    {
      var mu := ecgCycle.FindRangeMu(active);
      var b1 := ecgCycle.FindRangeB1(active);
      var b2 := ecgCycle.FindRangeB2(active);
      r := FirstError([mu, b1, b2]);
    }

    /** on_update: synthesise the displayed cycle. */
    method OnUpdate(exp: real -> real) returns (r: Result<()>)
      requires Valid() && SpreadsNonZero(ecgCycle.waves.entries)
      modifies ecgCycle, ecgCycle.waves
      ensures Valid() && ecgCycle == old(ecgCycle) && fresh(ecgCycle.amplitude)
      ensures var ws := old(ecgCycle.waves.entries);
        && (r.Ok? <==> LongPrefix(ws) == |ws|)
        && (r.Err? ==> r.error == IndexError)
        && (r.Ok? ==> (ecgCycle.waves.entries == LocateAll(ecgCycle.n, ws)
              && ecgCycle.amplitude[..] == SynthesisUpTo(ecgCycle.n, ws, |ws|, exp)))
    {
      r := ecgCycle.ConstructCycle(exp);
    }

    /** update_fh: rescale the dictionary in place to the spinbox's rate,
        build a new model at that rate on the same dictionary, recompute the
        slider ranges of the active pulse, then synthesise the cycle. An
        exception at any step ends the update there. */
    method UpdateFh(fhNew: real, active: string, exp: real -> real) returns (r: Result<()>)
      requires Valid() && SpreadsNonZero(ecgCycle.waves.entries) && fhNew > 0.0
      modifies this, ecgCycle.waves
      ensures Valid() && ecgCycle.waves == old(ecgCycle.waves)
      ensures var ws, k := old(ecgCycle.waves.entries), LongPrefix(old(ecgCycle.waves.entries));
        if k < |ws| then
          && r == Err(IndexError) && ecgCycle == old(ecgCycle)
          && ecgCycle.waves.entries == Normalized(ws, k, old(ecgCycle.Fh), fhNew)
        else
          var rescaled := Normalized(ws, |ws|, old(ecgCycle.Fh), fhNew);
          && fresh(ecgCycle) && ecgCycle.Fh == fhNew && ecgCycle.n == GridLength(fhNew)
          && SpreadsNonZero(rescaled) && LongPrefix(rescaled) == |rescaled|
          && (SlidersFit(rescaled, ecgCycle.n, active) ==>
                && r.Ok?
                && ecgCycle.waves.entries == LocateAll(ecgCycle.n, rescaled)
                && ecgCycle.amplitude[..] == SynthesisUpTo(ecgCycle.n, rescaled, |rescaled|, exp))
          && (!SlidersFit(rescaled, ecgCycle.n, active) ==> r.Err? && ecgCycle.waves.entries == rescaled)
    {
      ghost var ws := ecgCycle.waves.entries;
      ghost var fh := ecgCycle.Fh;
      var norm := ecgCycle.FhNormalization(fhNew);
      if norm.Err? {
        return Err(norm.error);
      }
      ghost var rescaled := Normalized(ws, |ws|, fh, fhNew);
      assert ecgCycle.waves.entries == rescaled;
      NormalizedAllLong(ws, fh, fhNew);
      assert LongPrefix(rescaled) == |rescaled|;
      var table := ecgCycle.waves;
      ecgCycle := new CycleModel(fhNew, table);
      var sliders := UpdateSliders(active);
      if sliders.Err? {
        assert !SlidersFit(rescaled, ecgCycle.n, active);
        return sliders;
      }
      r := OnUpdate(exp);
    }
  }
}
