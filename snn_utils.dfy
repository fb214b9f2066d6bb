/**
 * SnnUtils: builders that turn a configuration string such as "unif-40",
 * "avg_mem-0.5-10" or "lif-0-1-0.01" into a converter or neuron description.
 * The string is split at '-' as Java's `String.split("-")` does; the first
 * token selects the kind and the following tokens are its numeric parameters.
 * `Double.parseDouble` and `Integer.parseInt` are parameters (None = the
 * NumberFormatException they throw).
 */
module SnnUtils {
  import opened Wrappers

  const Token: char := '-'

  /** The exceptions the builders throw. */
  datatype BuildError =
    | UnknownConverter(name: string)     // IllegalArgumentException
    | IndexOutOfBounds(index: nat)       // ArrayIndexOutOfBoundsException on values[index]
    | NumberFormat(token: string)        // NumberFormatException from a parser

  datatype EncoderConfig =
    | Uniform(frequency: Option<real>)
    | UniformWithMemory(frequency: Option<real>)

  datatype DecoderConfig =
    | AverageFrequency(frequency: Option<real>)
    | MovingAverage(parameters: Option<(real, int)>)

  /** None: the constructor without arguments; Some(ps): the numeric constructor, arguments in order. */
  datatype NeuronConfig =
    | LIF(parameters: Option<seq<real>>)
    | LIFWithHomeostasis(parameters: Option<seq<real>>)
    | Izhikevich

  // ---------------------------------------------------------------- splitting

  /** Every '-'-separated field of `s`, empty ones included. */
  function Fields(s: string): (r: seq<string>)
    ensures |r| >= 1
    ensures forall i :: 0 <= i < |r| ==> Token !in r[i]
    decreases |s|
  {
    if |s| == 0 then [""]
    else
      var rest := Fields(s[1..]);
      if s[0] == Token then [""] + rest
      else [[s[0]] + rest[0]] + rest[1..]
  }

  /** Removes the empty strings at the end of `fields`. */
  function DropTrailingEmpty(fields: seq<string>): (r: seq<string>)
    ensures |r| <= |fields| && r == fields[..|r|]
    ensures r == [] || r[|r| - 1] != ""
    ensures forall i :: |r| <= i < |fields| ==> fields[i] == ""
  {
    if |fields| == 0 || fields[|fields| - 1] != "" then fields
    else DropTrailingEmpty(fields[..|fields| - 1])
  }

  /** `params.split("-")`: a string without separator is its own only token;
      otherwise the fields, with trailing empty ones removed. */
  function Split(params: string): (r: seq<string>)
    ensures forall i :: 0 <= i < |r| ==> Token !in r[i]
    ensures Token !in params <==> r == [params]
    ensures Token in params ==> r == [] || r[|r| - 1] != ""
    ensures |r| >= 1 ==> Join(r) <= params
  {
    if Token !in params then [params]
    else
      var fields := Fields(params);
      var r := DropTrailingEmpty(fields);
      JoinFields(params);
      if |r| >= 1 then JoinPrefix(fields, |r|); r else r
  }

  /** The tokens joined back with the separator. */
  function Join(tokens: seq<string>): string
    requires |tokens| >= 1
  {
    if |tokens| == 1 then tokens[0] else tokens[0] + [Token] + Join(tokens[1..])
  }

  /** Joining the fields of a string gives the string back. */
  lemma {:induction false} JoinFields(s: string)
    ensures Join(Fields(s)) == s
    decreases |s|
  {
    if |s| > 0 {
      var rest := Fields(s[1..]);
      JoinFields(s[1..]);
      if s[0] == Token {
        assert Join(Fields(s)) == [Token] + s[1..];
      } else if |rest| == 1 {
        assert Join(Fields(s)) == [s[0]] + rest[0];
      } else {
        assert Join(rest) == rest[0] + [Token] + Join(rest[1..]);
        var f := [[s[0]] + rest[0]] + rest[1..];
        assert f[1..] == rest[1..];
        assert Join(Fields(s)) == [s[0]] + rest[0] + [Token] + Join(rest[1..]);
      }
      assert [s[0]] + s[1..] == s;
    }
  }

  /** Joining the first `k` tokens gives a prefix of joining them all. */
  lemma {:induction false} JoinPrefix(tokens: seq<string>, k: nat)
    requires 1 <= k <= |tokens|
    ensures Join(tokens[..k]) <= Join(tokens)
    decreases k
  {
    if k > 1 {
      JoinPrefix(tokens[1..], k - 1);
      assert tokens[..k][1..] == tokens[1..][..k - 1];
    }
  }

  lemma {:induction false} FieldsOfPlain(a: string)
    requires Token !in a
    ensures Fields(a) == [a]
    decreases |a|
  {
    if |a| > 0 {
      FieldsOfPlain(a[1..]);
      assert [a[0]] + a[1..] == a;
    }
  }

  lemma {:induction false} FieldsOfJoined(a: string, b: string)
    requires Token !in a
    ensures Fields(a + [Token] + b) == [a] + Fields(b)
    decreases |a|
  {
    if |a| == 0 {
      assert a + [Token] + b == [Token] + b;
      assert ([Token] + b)[1..] == b;
    } else {
      var s := a + [Token] + b;
      assert s[1..] == a[1..] + [Token] + b;
      FieldsOfJoined(a[1..], b);
      assert [a[0]] + a[1..] == a;
    }
  }

  lemma {:induction false} FieldsOfJoin(tokens: seq<string>)
    requires |tokens| >= 1
    requires forall i :: 0 <= i < |tokens| ==> Token !in tokens[i]
    ensures Fields(Join(tokens)) == tokens
    decreases |tokens|
  {
    if |tokens| == 1 {
      FieldsOfPlain(tokens[0]);
    } else {
      FieldsOfJoined(tokens[0], Join(tokens[1..]));
      FieldsOfJoin(tokens[1..]);
      assert [tokens[0]] + tokens[1..] == tokens;
    }
  }

  /** Splitting undoes joining, for tokens without separator whose last one is not empty. */
  lemma SplitJoin(tokens: seq<string>)
    requires |tokens| >= 1
    requires forall i :: 0 <= i < |tokens| ==> Token !in tokens[i]
    requires tokens[|tokens| - 1] != ""
    ensures Split(Join(tokens)) == tokens
  {
    FieldsOfJoin(tokens);
    if |tokens| == 1 {
      assert Join(tokens) == tokens[0];
    } else {
      assert Join(tokens)[|tokens[0]|] == Token;
    }
  }

  // ---------------------------------------------------------------- parsing

  /** Parses every token, failing at the first malformed one. */
  function ParseAll(parseDouble: string -> Option<real>, tokens: seq<string>): (r: Result<seq<real>, BuildError>)
    ensures r.Ok? <==> forall i :: 0 <= i < |tokens| ==> parseDouble(tokens[i]).Some?
    ensures r.Ok? ==> |r.value| == |tokens| && forall i :: 0 <= i < |tokens| ==> parseDouble(tokens[i]) == Some(r.value[i])
    ensures r.Err? ==> r.error.NumberFormat?
  {
    if |tokens| == 0 then Ok([])
    else match parseDouble(tokens[0])
      case None => Err(NumberFormat(tokens[0]))
      case Some(v) =>
        match ParseAll(parseDouble, tokens[1..])
        case Err(e) => Err(e)
        case Ok(vs) => Ok([v] + vs)
  }

  /** Reads the `n` numeric parameters `values[1..n+1]` as Java evaluates the
      constructor arguments: left to right, each index access before its parse. */
  function ParseParameters(parseDouble: string -> Option<real>, values: seq<string>, n: nat): (r: Result<seq<real>, BuildError>)
    requires |values| >= 1
    ensures r.Ok? <==> |values| > n && forall i :: 1 <= i <= n ==> parseDouble(values[i]).Some?
    ensures r.Ok? ==> |r.value| == n && forall i :: 1 <= i <= n ==> parseDouble(values[i]) == Some(r.value[i - 1])
  {
    var available := values[1..if |values| <= n + 1 then |values| else n + 1];
    match ParseAll(parseDouble, available)
    case Err(e) => Err(e)
    case Ok(vs) => if |values| <= n then Err(IndexOutOfBounds(|values|)) else Ok(vs)
  }

  // ---------------------------------------------------------------- builders

  /** The switch of `buildQuantizedValueToSpikeTrainConverter` on the split tokens. */
  function EncoderFromTokens(parseDouble: string -> Option<real>, values: seq<string>): (r: Result<EncoderConfig, BuildError>)
    ensures |values| == 0 ==> r == Err(IndexOutOfBounds(0))
    ensures |values| > 0 ==> (values[0] !in {"unif", "unif_mem"} <==> r == Err(UnknownConverter(values[0])))
    ensures r.Ok? ==> (r.value.Uniform? <==> values[0] == "unif") && (r.value.UniformWithMemory? <==> values[0] == "unif_mem")
    ensures r.Ok? && |values| == 1 ==> r.value.frequency == None
    ensures r.Ok? && |values| > 1 ==> r.value.frequency == parseDouble(values[1])
    ensures |values| > 1 && values[0] in {"unif", "unif_mem"} ==> (r.Ok? <==> parseDouble(values[1]).Some?)
    ensures values == ["unif"] ==> r == Ok(Uniform(None))
    ensures values == ["unif_mem"] ==> r == Ok(UniformWithMemory(None))
  {
    if |values| == 0 then Err(IndexOutOfBounds(0))
    else if values[0] != "unif" && values[0] != "unif_mem" then Err(UnknownConverter(values[0]))
    else
      var frequency :- if |values| == 1 then Ok(None) else
                         match ParseParameters(parseDouble, values, 1)
                         case Ok(f) => Ok(Some(f[0]))
                         case Err(e) => Err(e);
      if values[0] == "unif" then Ok(Uniform(frequency)) else Ok(UniformWithMemory(frequency))
  }

  /** The switch of `buildQuantizedSpikeTrainToValueConverter` on the split tokens. */
  function DecoderFromTokens(parseDouble: string -> Option<real>, parseInt: string -> Option<int>, values: seq<string>): (r: Result<DecoderConfig, BuildError>)
    ensures |values| == 0 ==> r == Err(IndexOutOfBounds(0))
    ensures |values| > 0 ==> (values[0] !in {"avg", "avg_mem"} <==> r == Err(UnknownConverter(values[0])))
    ensures r.Ok? ==> (r.value.AverageFrequency? <==> values[0] == "avg") && (r.value.MovingAverage? <==> values[0] == "avg_mem")
    ensures r.Ok? && r.value.AverageFrequency? ==> r.value.frequency == if |values| == 1 then None else parseDouble(values[1])
    ensures r.Ok? && r.value.MovingAverage? && |values| > 1 ==>
              |values| > 2 && r.value.parameters.Some? &&
              parseDouble(values[1]) == Some(r.value.parameters.value.0) &&
              parseInt(values[2]) == Some(r.value.parameters.value.1)
    ensures |values| == 2 && values[0] == "avg_mem" && parseDouble(values[1]).Some? ==> r == Err(IndexOutOfBounds(2))
    ensures values == ["avg"] ==> r == Ok(AverageFrequency(None))
    ensures values == ["avg_mem"] ==> r == Ok(MovingAverage(None))
    ensures |values| > 1 && values[0] == "avg" ==> (r.Ok? <==> parseDouble(values[1]).Some?)
    ensures |values| > 1 && values[0] == "avg_mem" ==>
              (r.Ok? <==> parseDouble(values[1]).Some? && |values| > 2 && parseInt(values[2]).Some?)
  {
    if |values| == 0 then Err(IndexOutOfBounds(0))
    else if values[0] == "avg" then
      if |values| == 1 then Ok(AverageFrequency(None))
      else
        var f :- ParseParameters(parseDouble, values, 1);
        Ok(AverageFrequency(Some(f[0])))
    else if values[0] == "avg_mem" then
      if |values| == 1 then Ok(MovingAverage(None))
      else
        var f :- ParseParameters(parseDouble, values[..2], 1);
        if |values| == 2 then Err(IndexOutOfBounds(2))
        else match parseInt(values[2])
          case None => Err(NumberFormat(values[2]))
          case Some(n) => Ok(MovingAverage(Some((f[0], n))))
    else Err(UnknownConverter(values[0]))
  }

  /** The switch of `buildQuantizedSpikingFunction` on the split tokens: an
      unknown name is not an error, it selects the Izhikevich neuron. */
  function NeuronFromTokens(parseDouble: string -> Option<real>, values: seq<string>): (r: Result<NeuronConfig, BuildError>)
    ensures |values| == 0 ==> r == Err(IndexOutOfBounds(0))
    ensures !(r.Err? && r.error.UnknownConverter?)
    ensures |values| > 0 && values[0] !in {"lif", "lif_h"} ==> r == Ok(Izhikevich)
    ensures r.Ok? && r.value.LIF? ==> values[0] == "lif"
    ensures r.Ok? && r.value.LIFWithHomeostasis? ==> values[0] == "lif_h"
    ensures r.Ok? && !r.value.Izhikevich? && |values| > 1 ==>
              var n := if values[0] == "lif" then 3 else 4;
              |values| > n && r.value.parameters.Some? && |r.value.parameters.value| == n &&
              forall i :: 1 <= i <= n ==> parseDouble(values[i]) == Some(r.value.parameters.value[i - 1])
    ensures r.Ok? && !r.value.Izhikevich? && |values| == 1 ==> r.value.parameters == None
    ensures values == ["lif"] ==> r == Ok(LIF(None))
    ensures values == ["lif_h"] ==> r == Ok(LIFWithHomeostasis(None))
    ensures |values| > 1 && values[0] == "lif" ==>
              (r.Ok? <==> |values| > 3 && forall i :: 1 <= i <= 3 ==> parseDouble(values[i]).Some?)
    ensures |values| > 1 && values[0] == "lif_h" ==>
              (r.Ok? <==> |values| > 4 && forall i :: 1 <= i <= 4 ==> parseDouble(values[i]).Some?)
  {
    if |values| == 0 then Err(IndexOutOfBounds(0))
    else if values[0] == "lif" then
      if |values| == 1 then Ok(LIF(None))
      else
        var ps :- ParseParameters(parseDouble, values, 3);
        Ok(LIF(Some(ps)))
    else if values[0] == "lif_h" then
      if |values| == 1 then Ok(LIFWithHomeostasis(None))
      else
        var ps :- ParseParameters(parseDouble, values, 4);
        Ok(LIFWithHomeostasis(Some(ps)))
    else Ok(Izhikevich)
  }

  /** `buildQuantizedValueToSpikeTrainConverter(params)`. A string without
      separator is a bare kind name: that kind's default encoder, or the
      unknown-converter error. */
  function BuildQuantizedValueToSpikeTrainConverter(parseDouble: string -> Option<real>, params: string): (r: Result<EncoderConfig, BuildError>)
    ensures Token !in params ==>
              r == if params == "unif" then Ok(Uniform(None))
                   else if params == "unif_mem" then Ok(UniformWithMemory(None))
                   else Err(UnknownConverter(params))
    ensures var values := Split(params);
            r.Ok? <==> |values| >= 1 && values[0] in {"unif", "unif_mem"} && (|values| > 1 ==> parseDouble(values[1]).Some?)
  {
    EncoderFromTokens(parseDouble, Split(params))
  }

  /** `buildQuantizedSpikeTrainToValueConverter(params)`. */
  function BuildQuantizedSpikeTrainToValueConverter(parseDouble: string -> Option<real>, parseInt: string -> Option<int>, params: string): (r: Result<DecoderConfig, BuildError>)
    ensures Token !in params ==>
              r == if params == "avg" then Ok(AverageFrequency(None))
                   else if params == "avg_mem" then Ok(MovingAverage(None))
                   else Err(UnknownConverter(params))
    ensures var values := Split(params);
            r.Ok? <==> |values| >= 1 && values[0] in {"avg", "avg_mem"} &&
                       (|values| > 1 ==> parseDouble(values[1]).Some?) &&
                       (|values| > 1 && values[0] == "avg_mem" ==> |values| > 2 && parseInt(values[2]).Some?)
  {
    DecoderFromTokens(parseDouble, parseInt, Split(params))
  }

  /** `buildQuantizedSpikingFunction(params)`: a bare name other than "lif" or
      "lif_h" is the Izhikevich neuron. */
  function BuildQuantizedSpikingFunction(parseDouble: string -> Option<real>, params: string): (r: Result<NeuronConfig, BuildError>)
    ensures Token !in params ==>
              r == if params == "lif" then Ok(LIF(None))
                   else if params == "lif_h" then Ok(LIFWithHomeostasis(None))
                   else Ok(Izhikevich)
    ensures var values := Split(params);
            r.Ok? <==> |values| >= 1 &&
                       (|values| > 1 && values[0] in {"lif", "lif_h"} ==>
                          var n := if values[0] == "lif" then 3 else 4;
                          |values| > n && forall i :: 1 <= i <= n ==> parseDouble(values[i]).Some?)
  {
    NeuronFromTokens(parseDouble, Split(params))
  }

  /** Tokens after the parameters a neuron constructor reads are ignored. */
  lemma NeuronIgnoresExtraTokens(parseDouble: string -> Option<real>, values: seq<string>, extra: seq<string>)
    requires |values| >= 1
    requires values[0] == "lif" ==> |values| >= 4
    requires values[0] == "lif_h" ==> |values| >= 5
    ensures NeuronFromTokens(parseDouble, values + extra) == NeuronFromTokens(parseDouble, values)
  {
    var all := values + extra;
    if values[0] == "lif" {
      assert all[1..4] == values[1..4];
    } else if values[0] == "lif_h" {
      assert all[1..5] == values[1..5];
    }
  }

  /** A configuration string built from a kind and rendered parameters is read back as that kind
      with those parameters, whenever the parser reads each rendering back. */
  lemma EncoderRoundTrip(parseDouble: string -> Option<real>, kind: string, token: string, f: real)
    requires kind in {"unif", "unif_mem"}
    requires Token !in token && token != "" && parseDouble(token) == Some(f)
    ensures BuildQuantizedValueToSpikeTrainConverter(parseDouble, Join([kind, token])) ==
              Ok(if kind == "unif" then Uniform(Some(f)) else UniformWithMemory(Some(f)))
  {
    SplitJoin([kind, token]);
  }

  /** "avg-<token>" is read back as the average-frequency decoder with the parsed frequency. */
  lemma DecoderRoundTrip(parseDouble: string -> Option<real>, parseInt: string -> Option<int>, token: string, f: real)
    requires Token !in token && token != "" && parseDouble(token) == Some(f)
    ensures BuildQuantizedSpikeTrainToValueConverter(parseDouble, parseInt, Join(["avg", token])) ==
              Ok(AverageFrequency(Some(f)))
  {
    SplitJoin(["avg", token]);
  }

  /** "avg_mem-<frequency>-<window>" is read back as the moving-average decoder with both parsed parameters. */
  lemma MovingAverageRoundTrip(parseDouble: string -> Option<real>, parseInt: string -> Option<int>,
                               frequency: string, window: string, f: real, n: int)
    requires Token !in frequency && parseDouble(frequency) == Some(f)
    requires Token !in window && window != "" && parseInt(window) == Some(n)
    ensures BuildQuantizedSpikeTrainToValueConverter(parseDouble, parseInt, Join(["avg_mem", frequency, window])) ==
              Ok(MovingAverage(Some((f, n))))
  {
    SplitJoin(["avg_mem", frequency, window]);
  }

  /** "lif-a-b-c" and "lif_h-a-b-c-d" are read back as that neuron with the parsed parameters, in order. */
  lemma NeuronRoundTrip(parseDouble: string -> Option<real>, tokens: seq<string>, ps: seq<real>)
    requires |tokens| == 3 || |tokens| == 4
    requires forall i :: 0 <= i < |tokens| ==> Token !in tokens[i]
    requires tokens[|tokens| - 1] != ""
    requires |ps| == |tokens| && forall i :: 0 <= i < |tokens| ==> parseDouble(tokens[i]) == Some(ps[i])
    ensures var kind := if |tokens| == 3 then "lif" else "lif_h";
            BuildQuantizedSpikingFunction(parseDouble, Join([kind] + tokens)) ==
              Ok(if |tokens| == 3 then LIF(Some(ps)) else LIFWithHomeostasis(Some(ps)))
  {
    var kind := if |tokens| == 3 then "lif" else "lif_h";
    var values := [kind] + tokens;
    assert forall i :: 1 <= i < |values| ==> values[i] == tokens[i - 1];
    SplitJoin(values);
    var r := NeuronFromTokens(parseDouble, values);
    assert r.Ok?;
    assert r.value.parameters.value == ps;
  }
}
