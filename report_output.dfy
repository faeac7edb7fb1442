/** What a report run leaves behind: the lines appended to the result file and to
    the error file, the number of clients finished, and the exception that ended
    the run early, if one did.  Runs are specified by composing the outputs of
    their steps in order. */
module ReportOutput {
  import opened Common

  /** A line of the error file: the client, the address whose read failed, and the
      exception (the timestamp in front of it is not modelled). */
  datatype ErrorLine = ErrorLine(clientId: string, address: string, error: string)

  /** Appending two outputs' lines one after the other to a file. */
  lemma AppendTwice<T>(file: seq<T>, a: seq<T>, b: seq<T>)
    ensures (file + a) + b == file + (a + b)
  {
  }

  /** The output of a step or of a whole run.  `abort` is the exception that escaped,
      after which nothing more is written. */
  datatype Output<L> = Output(results: seq<L>, errors: seq<ErrorLine>, clients: nat, abort: Option<string>)

  function NoOutput<L>(): Output<L>
  {
    Output([], [], 0, None)
  }

  function Abort<L>(error: string): Output<L>
  {
    Output([], [], 0, Some(error))
  }

  /** `a` followed by `b`: nothing of `b` happens once `a` has aborted. */
  function Then<L>(a: Output<L>, b: Output<L>): (r: Output<L>)
    ensures a.abort.Some? ==> r == a
    ensures a.abort.None? ==> r.abort == b.abort && r.clients == a.clients + b.clients
  {
    if a.abort.Some? then a
    else Output(a.results + b.results, a.errors + b.errors, a.clients + b.clients, b.abort)
  }

  lemma ThenAssoc<L>(a: Output<L>, b: Output<L>, c: Output<L>)
    ensures Then(Then(a, b), c) == Then(a, Then(b, c))
  {
    if a.abort.None? && b.abort.None? {
      assert (a.results + b.results) + c.results == a.results + (b.results + c.results);
      assert (a.errors + b.errors) + c.errors == a.errors + (b.errors + c.errors);
    }
  }

  lemma ThenNoOutput<L>(a: Output<L>)
    ensures Then(a, NoOutput()) == a
  {
    if a.abort.None? {
      assert a.results + [] == a.results;
      assert a.errors + [] == a.errors;
    }
  }

  lemma NoOutputThen<L>(b: Output<L>)
    ensures Then(NoOutput(), b) == b
  {
    assert [] + b.results == b.results;
    assert [] + b.errors == b.errors;
  }

  lemma ThenAbort<L>(a: Output<L>, error: string)
    requires a.abort.None?
    ensures Then(a, Abort(error)) == Output(a.results, a.errors, a.clients, Some(error))
  {
    assert a.results + [] == a.results;
    assert a.errors + [] == a.errors;
  }

  /** What finishing a client adds: the counter goes up by one. */
  function Finished<L>(): Output<L>
  {
    Output([], [], 1, None)
  }

  /** The steps of a loop over `xs`, one after the other. */
  function Fold<T, L>(step: T -> Output<L>, xs: seq<T>): Output<L>
  {
    if xs == [] then NoOutput()
    else Then(Fold(step, xs[..|xs| - 1]), step(xs[|xs| - 1]))
  }

  lemma FoldStep<T, L>(step: T -> Output<L>, xs: seq<T>, i: nat)
    requires i < |xs|
    ensures Fold(step, xs[..i + 1]) == Then(Fold(step, xs[..i]), step(xs[i]))
  {
    assert xs[..i + 1][..i] == xs[..i];
  }

  lemma FoldSnoc<T, L>(step: T -> Output<L>, xs: seq<T>, x: T)
    ensures Fold(step, xs + [x]) == Then(Fold(step, xs), step(x))
  {
    assert (xs + [x])[..|xs|] == xs;
  }

  /** Once a prefix of the loop has aborted, the rest of the loop adds nothing. */
  lemma {:induction false} FoldAbortFinal<T, L>(step: T -> Output<L>, xs: seq<T>, i: nat)
    requires i <= |xs| && Fold(step, xs[..i]).abort.Some?
    ensures Fold(step, xs) == Fold(step, xs[..i])
    decreases |xs| - i
  {
    if i < |xs| {
      FoldStep(step, xs, i);
      FoldAbortFinal(step, xs, i + 1);
    } else {
      assert xs[..i] == xs;
    }
  }

  /** A property every step's result lines have holds of the whole loop's lines. */
  lemma {:induction false} FoldResults<T, L>(step: T -> Output<L>, xs: seq<T>, p: L -> bool)
    requires forall x, k :: x in xs && 0 <= k < |step(x).results| ==> p(step(x).results[k])
    ensures forall k :: 0 <= k < |Fold(step, xs).results| ==> p(Fold(step, xs).results[k])
  {
    if xs != [] {
      var init := xs[..|xs| - 1];
      assert forall x :: x in init ==> x in xs;
      FoldResults(step, init, p);
      assert xs[|xs| - 1] in xs;
    }
  }

  /** A property every step's error lines have holds of the whole loop's error lines. */
  lemma {:induction false} FoldErrors<T, L>(step: T -> Output<L>, xs: seq<T>, p: ErrorLine -> bool)
    requires forall x, k :: x in xs && 0 <= k < |step(x).errors| ==> p(step(x).errors[k])
    ensures forall k :: 0 <= k < |Fold(step, xs).errors| ==> p(Fold(step, xs).errors[k])
  {
    if xs != [] {
      var init := xs[..|xs| - 1];
      assert forall x :: x in init ==> x in xs;
      FoldErrors(step, init, p);
      assert xs[|xs| - 1] in xs;
    }
  }

  /** When every step writes exactly one line, to either file, and none aborts, the
      loop writes one line per element. */
  lemma {:induction false} FoldOneLineEach<T, L>(step: T -> Output<L>, xs: seq<T>)
    requires forall x :: x in xs ==> step(x).abort.None? && |step(x).results| + |step(x).errors| == 1
    ensures Fold(step, xs).abort.None? && |Fold(step, xs).results| + |Fold(step, xs).errors| == |xs|
  {
    if xs != [] {
      var init := xs[..|xs| - 1];
      assert forall x :: x in init ==> x in xs;
      FoldOneLineEach(step, init);
      assert xs[|xs| - 1] in xs;
    }
  }

  /** A loop finishes as many clients as its steps together. */
  lemma {:induction false} FoldClients<T, L>(step: T -> Output<L>, xs: seq<T>)
    requires forall x :: x in xs ==> step(x).abort.None? && step(x).clients == 1
    ensures Fold(step, xs).abort.None? && Fold(step, xs).clients == |xs|
  {
    if xs != [] {
      var init := xs[..|xs| - 1];
      assert forall x :: x in init ==> x in xs;
      FoldClients(step, init);
      assert xs[|xs| - 1] in xs;
    }
  }

  /** A loop whose steps neither abort nor finish a client does neither. */
  lemma {:induction false} FoldQuiet<T, L>(step: T -> Output<L>, xs: seq<T>)
    requires forall x :: x in xs ==> step(x).abort.None? && step(x).clients == 0
    ensures Fold(step, xs).abort.None? && Fold(step, xs).clients == 0
  {
    if xs != [] {
      var init := xs[..|xs| - 1];
      assert forall x :: x in init ==> x in xs;
      FoldQuiet(step, init);
      assert xs[|xs| - 1] in xs;
    }
  }

  /** A loop whose steps finish no client finishes none, whether or not it aborts. */
  lemma {:induction false} FoldNoClients<T, L>(step: T -> Output<L>, xs: seq<T>)
    requires forall x :: x in xs ==> step(x).clients == 0
    ensures Fold(step, xs).clients == 0
  {
    if xs != [] {
      var init := xs[..|xs| - 1];
      assert forall x :: x in init ==> x in xs;
      FoldNoClients(step, init);
      assert xs[|xs| - 1] in xs;
    }
  }

  /** When each step finishes its client exactly when it does not abort, a loop that
      does not abort has finished one client per step. */
  lemma {:induction false} FoldCountsFinished<T, L>(step: T -> Output<L>, xs: seq<T>)
    requires forall x :: x in xs ==> step(x).clients == (if step(x).abort.None? then 1 else 0)
    ensures Fold(step, xs).abort.None? ==> Fold(step, xs).clients == |xs|
  {
    if xs != [] {
      var init := xs[..|xs| - 1];
      assert forall x :: x in init ==> x in xs;
      FoldCountsFinished(step, init);
      assert xs[|xs| - 1] in xs;
    }
  }

  /** A page of client ids from the client-account service. */
  datatype ClientIdsPage = ClientIdsPage(ids: seq<string>, continuationToken: Option<string>)

  /** Pages `k` to `n` of the client-account service all arrive, each but the last
      with a continuation token, so the paged loop stops after page `n`. */
  predicate PagesEndAt(pages: seq<Result<ClientIdsPage>>, k: nat, n: nat)
  {
    && k <= n < |pages|
    && (forall i :: k <= i <= n ==> pages[i].Ok?)
    && (forall i :: k <= i < n ==> pages[i].value.continuationToken.Some?)
    && pages[n].value.continuationToken.None?
  }

  /** The ids of pages `k` to `n`, one batch per page. */
  function PageBatches(pages: seq<Result<ClientIdsPage>>, k: nat, n: nat): (batches: seq<seq<string>>)
    requires k <= n < |pages| && forall i :: k <= i <= n ==> pages[i].Ok?
    ensures |batches| == n - k + 1
  {
    seq(n - k + 1, i requires 0 <= i < n - k + 1 => pages[k + i].value.ids)
  }

  /** The batches of pages `k` to `n`: the first page's ids, then those of the rest. */
  lemma PageBatchesCons(pages: seq<Result<ClientIdsPage>>, k: nat, n: nat)
    requires k <= n < |pages| && forall i :: k <= i <= n ==> pages[i].Ok?
    ensures PageBatches(pages, k, n) == [pages[k].value.ids] + (if k == n then [] else PageBatches(pages, k + 1, n))
  {
    var rest: seq<seq<string>> := if k == n then [] else PageBatches(pages, k + 1, n);
    assert forall i :: 0 <= i < |rest| ==> rest[i] == pages[k + 1 + i].value.ids;
  }

  /** The loop, seen from its first step. */
  lemma {:induction false} FoldCons<T, L>(step: T -> Output<L>, x: T, xs: seq<T>)
    ensures Fold(step, [x] + xs) == Then(step(x), Fold(step, xs))
  {
    if xs == [] {
      assert [x] + xs == [x] && [x][..0] == [];
      NoOutputThen(step(x));
      ThenNoOutput(step(x));
    } else {
      var init := xs[..|xs| - 1];
      FoldCons(step, x, init);
      assert ([x] + xs)[..|xs|] == [x] + init;
      ThenAssoc(step(x), Fold(step, init), step(xs[|xs| - 1]));
    }
  }

  /** The message of an `ArgumentNullException` thrown without a parameter name. */
  const ValueCannotBeNull: string := "Value cannot be null."

  /** What the run sees when a paged service is asked for more pages than it has replies. */
  const NoReplyMessage: string := "The service gave no reply"

  /** The exit code the command handler returns: 1 when an exception escaped, 0
      otherwise. */
  function ExitCode(abort: Option<string>): (code: int)
    ensures code == 0 || code == 1
    ensures code == 1 <==> abort.Some?
  {
    if abort.Some? then 1 else 0
  }

  /** The result and error files, which the run only ever appends to. */
  class ReportFiles<L> {
    var results: seq<L>
    var errors: seq<ErrorLine>

    constructor ()
      ensures results == [] && errors == []
    {
      results := [];
      errors := [];
    }

    /** `File.AppendAllTextAsync` on the result file. */
    method AppendResult(line: L)
      modifies this
      ensures results == old(results) + [line] && errors == old(errors)
    {
      results := results + [line];
    }

    /** `File.AppendAllTextAsync` on the error file. */
    method AppendError(line: ErrorLine)
      modifies this
      ensures errors == old(errors) + [line] && results == old(results)
    {
      errors := errors + [line];
    }
  }
}
