/**
 * QuoteService: the quotes of `quotes.txt`, read on first use, and the pick
 * of one of them. The lines of the resource and the random draw are passed
 * in.
 */
module Quotes {
  import opened Wrappers
  import JavaString

  /** A line of the file holds a quote when, trimmed, it is not empty and not a comment. */
  predicate IsQuote(trimmed: string) {
    |trimmed| > 0 && !JavaString.StartsWith(trimmed, "#")
  }

  /** Every line trimmed, as `line.trim()` does. */
  function TrimmedLines(lines: seq<string>): (r: seq<string>)
    ensures |r| == |lines| && forall i :: 0 <= i < |lines| ==> r[i] == JavaString.Trim(lines[i])
  {
    seq(|lines|, i requires 0 <= i < |lines| => JavaString.Trim(lines[i]))
  }

  /** The quotes among some trimmed lines, in order. */
  function KeepQuotes(trimmed: seq<string>): (r: seq<string>)
    ensures |r| <= |trimmed|
  {
    if trimmed == [] then []
    else
      var n := |trimmed| - 1;
      KeepQuotes(trimmed[..n]) + (if IsQuote(trimmed[n]) then [trimmed[n]] else [])
  }

  /** The quotes of the lines of a file, trimmed and in file order. */
  function QuoteLines(lines: seq<string>): seq<string> {
    KeepQuotes(TrimmedLines(lines))
  }

  /** Exactly the trimmed lines that are quotes are kept. */
  lemma {:induction false} KeepQuotesMembers(trimmed: seq<string>, q: string)
    ensures q in KeepQuotes(trimmed) <==> q in trimmed && IsQuote(q)
    decreases |trimmed|
  {
    if trimmed != [] {
      var n := |trimmed| - 1;
      KeepQuotesMembers(trimmed[..n], q);
      assert trimmed == trimmed[..n] + [trimmed[n]];
    }
  }

  lemma QuoteLinesMembers(lines: seq<string>, q: string)
    ensures q in QuoteLines(lines) <==> exists i :: 0 <= i < |lines| && q == JavaString.Trim(lines[i]) && IsQuote(q)
  {
    var trimmed := TrimmedLines(lines);
    KeepQuotesMembers(trimmed, q);
    if q in trimmed {
      var i :| 0 <= i < |trimmed| && trimmed[i] == q;
      assert q == JavaString.Trim(lines[i]);
    }
  }

  /** One more trimmed line adds itself when it is a quote, and nothing otherwise. */
  lemma KeepQuotesStep(trimmed: seq<string>, i: nat)
    requires i < |trimmed|
    ensures KeepQuotes(trimmed[..i + 1]) == KeepQuotes(trimmed[..i]) + (if IsQuote(trimmed[i]) then [trimmed[i]] else [])
  {
    assert trimmed[..i + 1][..i] == trimmed[..i];
  }

  /** The quotes of a file are those of its first part followed by those of the rest: the order is kept. */
  lemma {:induction false} KeepQuotesConcat(a: seq<string>, b: seq<string>)
    ensures KeepQuotes(a + b) == KeepQuotes(a) + KeepQuotes(b)
    decreases |b|
  {
    if b == [] {
      assert a + b == a;
    } else {
      var n := |b| - 1;
      assert (a + b)[..|a + b| - 1] == a + b[..n];
      KeepQuotesConcat(a, b[..n]);
    }
  }

  lemma QuoteLinesConcat(a: seq<string>, b: seq<string>)
    ensures QuoteLines(a + b) == QuoteLines(a) + QuoteLines(b)
  {
    assert TrimmedLines(a + b) == TrimmedLines(a) + TrimmedLines(b);
    KeepQuotesConcat(TrimmedLines(a), TrimmedLines(b));
  }

  /** Blank lines and comment lines add no quote. */
  lemma SkippedLines(line: string)
    requires JavaString.Trim(line) == [] || JavaString.StartsWith(JavaString.Trim(line), "#")
    ensures QuoteLines([line]) == []
  {
    assert TrimmedLines([line]) == [JavaString.Trim(line)];
  }

  /** One line of the file: its trimmed text is appended when it is a quote. */
  method ReadLine(quotes: seq<string>, line: string) returns (r: seq<string>)
    ensures var trimmed := JavaString.Trim(line);
      r == quotes + (if IsQuote(trimmed) then [trimmed] else [])
  {
    var trimmed := JavaString.Trim(line);
    if |trimmed| > 0 && !JavaString.StartsWith(trimmed, "#") {
      r := quotes + [trimmed];
    } else {
      r := quotes;
    }
  }

  class QuoteService {
    var quotes: seq<string>

    constructor()
      ensures quotes == []
    {
      quotes := [];
    }

    /** `loadQuotes()`: a resource that cannot be read raises a RuntimeException. */
    method LoadQuotes(resource: Result<seq<string>>) returns (r: Result<()>)
      modifies this
      ensures resource.Failure? ==> r == Failure(RuntimeError) && quotes == old(quotes)
      ensures resource.Success? ==> r == Success(()) && quotes == old(quotes) + QuoteLines(resource.value)
    {
      if resource.Failure? {
        return Failure(RuntimeError);
      }
      var lines := resource.value;
      ghost var all := TrimmedLines(lines);
      for i := 0 to |lines|
        invariant quotes == old(quotes) + KeepQuotes(all[..i])
      {
        KeepQuotesStep(all, i);
        quotes := ReadLine(quotes, lines[i]);
      }
      assert all[..|lines|] == all;
      return Success(());
    }

    /**
     * `randomQuote()`: the quotes are loaded only while there are none, and
     * `random(n)` plays `Random.nextInt(n)`, which picks in [0, n) and raises
     * an IllegalArgumentException for n = 0.
     */
    method RandomQuote(resource: Result<seq<string>>, random: nat -> nat) returns (r: Result<string>)
      requires forall n: nat :: n > 0 ==> random(n) < n
      modifies this
      ensures old(quotes) != [] ==> quotes == old(quotes)
      ensures old(quotes) == [] && resource.Success? ==> quotes == QuoteLines(resource.value)
      ensures old(quotes) == [] && resource.Failure? ==> r == Failure(RuntimeError)
      ensures r.Success? ==> r.value in quotes && r.value == quotes[random(|quotes|)]
      ensures r.Failure? ==> quotes == [] || (old(quotes) == [] && resource.Failure?)
      ensures quotes == [] && !(old(quotes) == [] && resource.Failure?) ==> r == Failure(IllegalArgumentError)
    {
      if quotes == [] {
        var loaded := LoadQuotes(resource);
        if loaded.Failure? {
          return Failure(loaded.error);
        }
      }
      if |quotes| == 0 {
        return Failure(IllegalArgumentError);
      }
      var i := random(|quotes|);
      return Success(quotes[i]);
    }
  }

  /** Every quote picked is a trimmed quote line of the file. */
  lemma PickedIsQuoteLine(lines: seq<string>, i: nat)
    requires i < |QuoteLines(lines)|
    ensures var q := QuoteLines(lines)[i];
      IsQuote(q) && exists k :: 0 <= k < |lines| && q == JavaString.Trim(lines[k])
  {
    QuoteLinesMembers(lines, QuoteLines(lines)[i]);
  }
}
