/**
 * What `uploadImages` promises, stated over its specification `Upload`/`Run`:
 * the count check, the null list, skipped empty files, the order of the checks,
 * early exit without rollback, and the records returned on success.
 */
module UploadProperties {
  import opened Wrappers
  import Decimal
  import opened ProductController

  /** The files of `files` that are not empty, in submission order. */
  function NonEmpty(files: seq<MultipartFile>): (r: seq<MultipartFile>)
    ensures |r| <= |files|
    ensures forall j | 0 <= j < |r| :: r[j].size > 0
    ensures forall f | f in r :: f in files
    ensures forall f | f in files && f.size > 0 :: f in r
    decreases |files|
  {
    if files == [] then []
    else if files[0].size == 0 then NonEmpty(files[1..])
    else [files[0]] + NonEmpty(files[1..])
  }

  /**
   * A non-empty file that goes through: within the size limit, an image, with a
   * client file name, and registered by the service under the name `id` gives it.
   */
  predicate Passes(productId: int, file: MultipartFile, id: string, env: Collaborators) {
    file.size <= MaxFileSize && IsImageFile(file) && file.originalFilename.Some?
    && env.createImage(productId, StoreFileName(file, id, env.cleanPath).value).Success?
  }

  // ---------------------------------------------------------------------------
  // Before the loop: product lookup, null list, count check

  /** A failed product lookup answers 400 with the exception's message and touches nothing. */
  lemma LookupFailure(message: string, files: Option<seq<MultipartFile>>, maxImages: int, env: Collaborators)
    ensures Upload(Failure(message), files, maxImages, env) == Outcome(BadRequest(message), [], [])
  {
  }

  /**
   * More files than the limit, empty ones included, answer 400 and store and register
   * nothing; a list of at most the limit (exactly the limit included) goes on to the loop.
   */
  lemma CountCheck(product: Product, files: Option<seq<MultipartFile>>, maxImages: int, env: Collaborators)
    ensures |FileList(files)| > maxImages ==>
              Upload(Success(product), files, maxImages, env) == Outcome(BadRequest(TooManyText(maxImages)), [], [])
    ensures |FileList(files)| <= maxImages ==>
              Upload(Success(product), files, maxImages, env) == Finish(Run(product.id, FileList(files), 0, env))
  {
  }

  /** The count message names the limit: the number in it reads back as `maxImages`. */
  lemma TooManyTextNamesLimit(maxImages: int)
    ensures var s := TooManyText(maxImages);
            var number := s[|"You can upload maximum "|..|s| - |" images"|];
            Decimal.IsDecimal(number) && Decimal.ParseInt(number) == maxImages
  {
    var s := TooManyText(maxImages);
    assert s[|"You can upload maximum "|..|s| - |" images"|] == Decimal.IntToString(maxImages);
    Decimal.IntToStringRoundTrip(maxImages);
  }

  /** A null list is handled as the empty list: 200 with no records once the product is found. */
  lemma NullListIsEmptyList(lookup: Result<Product, string>, maxImages: int, env: Collaborators)
    ensures Upload(lookup, None, maxImages, env) == Upload(lookup, Some([]), maxImages, env)
    ensures lookup.Success? && maxImages >= 0 ==> Upload(lookup, None, maxImages, env) == Outcome(Response(StatusOk, Images([])), [], [])
  {
  }

  // ---------------------------------------------------------------------------
  // The loop

  /** Empty files change nothing: the loop behaves as if they had not been sent. */
  lemma {:induction false} EmptyFilesIgnored(productId: int, files: seq<MultipartFile>, k: nat, env: Collaborators)
    ensures Run(productId, files, k, env) == Run(productId, NonEmpty(files), k, env)
    decreases |files|
  {
    if files != [] {
      if files[0].size == 0 {
        EmptyFilesIgnored(productId, files[1..], k, env);
      } else {
        var ne := NonEmpty(files);
        assert ne[0] == files[0] && ne[1..] == NonEmpty(files[1..]);
        var step := StepOf(productId, files[0], env.uuid(k), env.cleanPath, env.createImage);
        if step.Accept? {
          EmptyFilesIgnored(productId, files[1..], k + 1, env);
        }
      }
    }
  }

  /** A list made only of empty files is accepted with no records, and nothing is written. */
  lemma AllEmptyAccepted(product: Product, files: seq<MultipartFile>, maxImages: int, env: Collaborators)
    requires |files| <= maxImages
    requires forall j | 0 <= j < |files| :: files[j].size == 0
    ensures Upload(Success(product), Some(files), maxImages, env) == Outcome(Response(StatusOk, Images([])), [], [])
  {
    AllEmptyRun(product.id, files, 0, env);
  }

  lemma {:induction false} AllEmptyRun(productId: int, files: seq<MultipartFile>, k: nat, env: Collaborators)
    requires forall j | 0 <= j < |files| :: files[j].size == 0
    ensures Run(productId, files, k, env) == Trace([], [], None)
    decreases |files|
  {
    if files != [] {
      assert files[0].size == 0;
      AllEmptyRun(productId, files[1..], k, env);
    }
  }

  /**
   * The loop over `first + rest` is the loop over `first`, then, unless that stopped,
   * the loop over `rest` with the ids already drawn: nothing done before a stop is undone,
   * and nothing after it is looked at.
   */
  lemma {:induction false} RunAppend(productId: int, first: seq<MultipartFile>, rest: seq<MultipartFile>, k: nat, env: Collaborators)
    ensures Appends(productId, first, rest, k, env)
    decreases |first|
  {
    if first == [] {
      AppendEmpty(productId, rest, k, env);
    } else {
      var step := StepOf(productId, first[0], env.uuid(k), env.cleanPath, env.createImage);
      if step.Skip? {
        RunAppend(productId, first[1..], rest, k, env);
        AppendSkip(productId, first, rest, k, env, step);
      } else if step.Accept? {
        RunAppend(productId, first[1..], rest, k + 1, env);
        AppendAccept(productId, first, rest, k, env, step);
      } else {
        AppendHalt(productId, first, rest, k, env, step);
      }
    }
  }

  /** The loop over `first + rest` is the loop over `first`, then, unless that stopped, the loop over `rest`. */
  predicate Appends(productId: int, first: seq<MultipartFile>, rest: seq<MultipartFile>, k: nat, env: Collaborators) {
    var t := Run(productId, first, k, env);
    Run(productId, first + rest, k, env) == Then(t, Run(productId, rest, k + |t.created|, env))
  }

  lemma AppendEmpty(productId: int, rest: seq<MultipartFile>, k: nat, env: Collaborators)
    ensures Appends(productId, [], rest, k, env)
  {
    assert [] + rest == rest;
    var r := Run(productId, rest, k, env);
    assert [] + r.stored == r.stored && [] + r.created == r.created;
  }

  lemma AppendSkip(productId: int, first: seq<MultipartFile>, rest: seq<MultipartFile>, k: nat, env: Collaborators, step: Step)
    requires first != [] && step == StepOf(productId, first[0], env.uuid(k), env.cleanPath, env.createImage) && step.Skip?
    requires Appends(productId, first[1..], rest, k, env)
    ensures Appends(productId, first, rest, k, env)
  {
    var all := first + rest;
    assert all[0] == first[0] && all[1..] == first[1..] + rest;
    RunStep(productId, first, k, env, step);
    RunStep(productId, all, k, env, step);
  }

  lemma AppendHalt(productId: int, first: seq<MultipartFile>, rest: seq<MultipartFile>, k: nat, env: Collaborators, step: Step)
    requires first != [] && step == StepOf(productId, first[0], env.uuid(k), env.cleanPath, env.createImage) && step.Halt?
    ensures Appends(productId, first, rest, k, env)
  {
    var all := first + rest;
    assert all[0] == first[0];
    RunStep(productId, first, k, env, step);
    RunStep(productId, all, k, env, step);
  }

  lemma AppendAccept(productId: int, first: seq<MultipartFile>, rest: seq<MultipartFile>, k: nat, env: Collaborators, step: Step)
    requires first != [] && step == StepOf(productId, first[0], env.uuid(k), env.cleanPath, env.createImage) && step.Accept?
    requires Appends(productId, first[1..], rest, k + 1, env)
    ensures Appends(productId, first, rest, k, env)
  {
    var all := first + rest;
    assert all[0] == first[0] && all[1..] == first[1..] + rest;
    RunStep(productId, first, k, env, step);
    RunStep(productId, all, k, env, step);
    var t := Run(productId, first, k, env);
    var t' := Run(productId, first[1..], k + 1, env);
    var r := Run(productId, rest, k + |t.created|, env);
    assert t == Join([step.name], [step.image], t');
    assert k + 1 + |t'.created| == k + |t.created|;
    assert Run(productId, first[1..] + rest, k + 1, env) == Then(t', r);
    ThenJoin(step.name, step.image, t', r);
  }

  /** `t`, followed, unless it stopped, by `next`. */
  function Then(t: Trace, next: Trace): (r: Trace)
    ensures t.stop.Some? ==> r == t
    ensures t.stop.None? ==> r.stored == t.stored + next.stored && r.created == t.created + next.created && r.stop == next.stop
  {
    if t.stop.Some? then t else Join(t.stored, t.created, next)
  }

  /** One accepted file in front of `t` commutes with `Then`. */
  lemma ThenJoin(name: string, image: ProductImage, t: Trace, next: Trace)
    ensures Then(Join([name], [image], t), next) == Join([name], [image], Then(t, next))
  {
    if t.stop.None? {
      JoinJoin([name], [image], t.stored, t.created, next);
    }
  }

  /**
   * The first non-empty file over 10 MiB ends the request with 413 whatever its content
   * type: the files before it stay stored and registered, the files after it are not read.
   */
  lemma FirstOversizeStops(productId: int, before: seq<MultipartFile>, file: MultipartFile, after: seq<MultipartFile>,
                           k: nat, env: Collaborators)
    requires Run(productId, before, k, env).stop.None?
    requires file.size > MaxFileSize
    ensures var t := Run(productId, before, k, env);
            Run(productId, before + [file] + after, k, env)
              == Trace(t.stored, t.created, Some(Response(StatusPayloadTooLarge, Message(TooLargeText))))
  {
    assert before + [file] + after == before + ([file] + after);
    RunAppend(productId, before, [file] + after, k, env);
    var t := Run(productId, before, k, env);
    assert t.stored + [] == t.stored && t.created + [] == t.created;
  }

  /**
   * A non-empty file within the size limit whose content type is missing or not
   * "image/..." ends the request with 415, after the files before it.
   */
  lemma NonImageStops(productId: int, before: seq<MultipartFile>, file: MultipartFile, after: seq<MultipartFile>,
                      k: nat, env: Collaborators)
    requires Run(productId, before, k, env).stop.None?
    requires 0 < file.size <= MaxFileSize && !IsImageFile(file)
    ensures var t := Run(productId, before, k, env);
            Run(productId, before + [file] + after, k, env)
              == Trace(t.stored, t.created, Some(Response(StatusUnsupportedMediaType, Message(NotAnImageText))))
  {
    assert before + [file] + after == before + ([file] + after);
    RunAppend(productId, before, [file] + after, k, env);
    var t := Run(productId, before, k, env);
    assert t.stored + [] == t.stored && t.created + [] == t.created;
  }

  /**
   * An image within the size limit that has no client file name makes `storeFile`
   * throw: the request ends with 400 "Invalid image format" and the file is not written.
   */
  lemma MissingNameStops(productId: int, before: seq<MultipartFile>, file: MultipartFile, after: seq<MultipartFile>,
                         k: nat, env: Collaborators)
    requires Run(productId, before, k, env).stop.None?
    requires 0 < file.size <= MaxFileSize && IsImageFile(file) && file.originalFilename.None?
    ensures var t := Run(productId, before, k, env);
            Run(productId, before + [file] + after, k, env) == Trace(t.stored, t.created, Some(BadRequest(InvalidImageText)))
  {
    assert before + [file] + after == before + ([file] + after);
    RunAppend(productId, before, [file] + after, k, env);
    var t := Run(productId, before, k, env);
    assert t.stored + [] == t.stored && t.created + [] == t.created;
  }

  /**
   * When the service refuses to register a stored file, the request ends with 400 and
   * the service's message, and the file stays on disk with no record for it.
   */
  lemma RegistrationFailureKeepsFile(productId: int, before: seq<MultipartFile>, file: MultipartFile, after: seq<MultipartFile>,
                                     k: nat, env: Collaborators, name: string, message: string)
    requires Run(productId, before, k, env).stop.None?
    requires 0 < file.size <= MaxFileSize
    requires StoreFileName(file, env.uuid(k + |Run(productId, before, k, env).created|), env.cleanPath) == Success(name)
    requires env.createImage(productId, name) == Failure(message)
    ensures var t := Run(productId, before, k, env);
            Run(productId, before + [file] + after, k, env) == Trace(t.stored + [name], t.created, Some(BadRequest(message)))
  {
    assert before + [file] + after == before + ([file] + after);
    RunAppend(productId, before, [file] + after, k, env);
    var t := Run(productId, before, k, env);
    assert t.created + [] == t.created;
  }

  /** A non-empty file is accepted exactly when it passes, under the name `storeFile` gives it. */
  lemma AcceptIffPasses(productId: int, file: MultipartFile, id: string, env: Collaborators)
    requires file.size > 0
    ensures var step := StepOf(productId, file, id, env.cleanPath, env.createImage);
            (step.Accept? <==> Passes(productId, file, id, env))
            && (step.Accept? ==> StoreFileName(file, id, env.cleanPath) == Success(step.name)
                                 && env.createImage(productId, step.name) == Success(step.image))
  {
  }

  /** Every file of `files` passes, the j-th with the id drawn j-th from `k` on. */
  predicate AllPass(productId: int, files: seq<MultipartFile>, k: nat, env: Collaborators)
    decreases |files|
  {
    files == [] || (Passes(productId, files[0], env.uuid(k), env) && AllPass(productId, files[1..], k + 1, env))
  }

  /** `AllPass` is the quantified statement it abbreviates. */
  lemma {:induction false} AllPassIff(productId: int, files: seq<MultipartFile>, k: nat, env: Collaborators)
    ensures AllPass(productId, files, k, env) <==> forall j | 0 <= j < |files| :: Passes(productId, files[j], env.uuid(k + j), env)
    decreases |files|
  {
    if files != [] {
      var rest := files[1..];
      AllPassIff(productId, rest, k + 1, env);
      if forall j | 0 <= j < |files| :: Passes(productId, files[j], env.uuid(k + j), env) {
        assert Passes(productId, files[0], env.uuid(k + 0), env);
        forall j | 0 <= j < |rest| ensures Passes(productId, rest[j], env.uuid(k + 1 + j), env) {
          assert rest[j] == files[j + 1] && k + 1 + j == k + (j + 1);
        }
      }
      if AllPass(productId, files, k, env) {
        forall j | 0 <= j < |files| ensures Passes(productId, files[j], env.uuid(k + j), env) {
          if j > 0 {
            assert files[j] == rest[j - 1] && k + j == k + 1 + (j - 1);
          }
        }
      }
    }
  }

  /** Over a list of non-empty files the loop gets through exactly when every file passes. */
  lemma {:induction false} RunOkIffAllPass(productId: int, files: seq<MultipartFile>, k: nat, env: Collaborators)
    requires forall j | 0 <= j < |files| :: files[j].size > 0
    ensures Run(productId, files, k, env).stop.None? <==> AllPass(productId, files, k, env)
    decreases |files|
  {
    if files != [] {
      var step := StepOf(productId, files[0], env.uuid(k), env.cleanPath, env.createImage);
      RunStep(productId, files, k, env, step);
      AcceptIffPasses(productId, files[0], env.uuid(k), env);
      if step.Accept? {
        RunOkIffAllPass(productId, files[1..], k + 1, env);
      }
    }
  }

  /**
   * `stored` and `created` are the names and the records of `files`, in order: the j-th
   * file was stored under the j-th id drawn from `k` on, and registered under that name.
   */
  predicate Records(productId: int, files: seq<MultipartFile>, k: nat, env: Collaborators,
                    stored: seq<string>, created: seq<ProductImage>)
  {
    |stored| == |files| && |created| == |files|
    && forall j | 0 <= j < |files| ::
         StoreFileName(files[j], env.uuid(k + j), env.cleanPath) == Success(stored[j])
         && env.createImage(productId, stored[j]) == Success(created[j])
  }

  /** One stored and registered file in front of the records of the rest. */
  lemma RecordsCons(productId: int, files: seq<MultipartFile>, k: nat, env: Collaborators,
                    name: string, image: ProductImage, stored: seq<string>, created: seq<ProductImage>)
    requires files != []
    requires StoreFileName(files[0], env.uuid(k), env.cleanPath) == Success(name)
    requires env.createImage(productId, name) == Success(image)
    requires Records(productId, files[1..], k + 1, env, stored, created)
    ensures Records(productId, files, k, env, [name] + stored, [image] + created)
  {
    var rest := files[1..];
    var s := [name] + stored;
    var c := [image] + created;
    forall j | 0 <= j < |files|
      ensures StoreFileName(files[j], env.uuid(k + j), env.cleanPath) == Success(s[j])
              && env.createImage(productId, s[j]) == Success(c[j])
    {
      if j > 0 {
        assert files[j] == rest[j - 1] && s[j] == stored[j - 1] && c[j] == created[j - 1];
        assert k + j == k + 1 + (j - 1);
      }
    }
  }

  /** When the loop over non-empty files gets through, it has stored and registered each file in order. */
  lemma {:induction false} RunOkRecords(productId: int, files: seq<MultipartFile>, k: nat, env: Collaborators)
    requires forall j | 0 <= j < |files| :: files[j].size > 0
    requires Run(productId, files, k, env).stop.None?
    ensures var t := Run(productId, files, k, env);
            Records(productId, files, k, env, t.stored, t.created)
    decreases |files|
  {
    if files == [] {
      assert Run(productId, files, k, env) == Trace([], [], None);
    } else {
      var rest := files[1..];
      var step := StepOf(productId, files[0], env.uuid(k), env.cleanPath, env.createImage);
      RunStep(productId, files, k, env, step);
      AcceptIffPasses(productId, files[0], env.uuid(k), env);
      assert step.Accept?;
      RunOkRecords(productId, rest, k + 1, env);
      var t' := Run(productId, rest, k + 1, env);
      RecordsCons(productId, files, k, env, step.name, step.image, t'.stored, t'.created);
    }
  }

  /**
   * The loop gets through exactly when every non-empty file passes (the j-th of them
   * with the j-th id drawn); it then returns one record per non-empty file, in
   * submission order, each registered under the name `storeFile` gave that file.
   */
  lemma RunSucceeds(productId: int, files: seq<MultipartFile>, k: nat, env: Collaborators)
    ensures var t := Run(productId, files, k, env);
            var ne := NonEmpty(files);
            (t.stop.None? <==> AllPass(productId, ne, k, env))
            && (t.stop.None? ==> Records(productId, ne, k, env, t.stored, t.created))
  {
    EmptyFilesIgnored(productId, files, k, env);
    var ne := NonEmpty(files);
    RunOkIffAllPass(productId, ne, k, env);
    if Run(productId, ne, k, env).stop.None? {
      RunOkRecords(productId, ne, k, env);
    }
  }

  /**
   * Once the product is found and the count is within the limit, the upload answers
   * 200 exactly when every non-empty file passes, and then lists one record per
   * non-empty file, in order, each registered under the name its file was stored as.
   */
  lemma UploadSucceeds(product: Product, files: Option<seq<MultipartFile>>, maxImages: int, env: Collaborators)
    requires |FileList(files)| <= maxImages
    ensures var o := Upload(Success(product), files, maxImages, env);
            var ne := NonEmpty(FileList(files));
            (o.response.status == StatusOk <==> AllPass(product.id, ne, 0, env))
            && (o.response.status == StatusOk ==>
                  o.response.body == Images(o.created) && Records(product.id, ne, 0, env, o.stored, o.created))
  {
    var list := FileList(files);
    var t := Run(product.id, list, 0, env);
    assert Upload(Success(product), files, maxImages, env) == Finish(t);
    RunSucceeds(product.id, list, 0, env);
    RunStatuses(product.id, list, 0, env);
  }

  /**
   * No rollback: a good image followed by an oversized file answers 413, yet the
   * first image stays written and registered.
   */
  lemma GoodThenOversizeKeepsFirst(product: Product, good: MultipartFile, big: MultipartFile, maxImages: int,
                                   env: Collaborators, name: string, image: ProductImage)
    requires maxImages >= 2
    requires 0 < good.size <= MaxFileSize && big.size > MaxFileSize
    requires StoreFileName(good, env.uuid(0), env.cleanPath) == Success(name)
    requires env.createImage(product.id, name) == Success(image)
    ensures Upload(Success(product), Some([good, big]), maxImages, env)
              == Outcome(Response(StatusPayloadTooLarge, Message(TooLargeText)), [name], [image])
  {
    var step := StepOf(product.id, good, env.uuid(0), env.cleanPath, env.createImage);
    assert step == Accept(name, image);
    var after := Run(product.id, [good], 0, env);
    RunStep(product.id, [good], 0, env, step);
    assert [good][1..] == [];
    assert after == Trace([name], [image], None);
    FirstOversizeStops(product.id, [good], big, [], 0, env);
    assert [good] + [big] + [] == [good, big];
  }

  /** The upload answers 200, 400, 413 or 415, and 200 only with the records it created. */
  lemma UploadStatuses(lookup: Result<Product, string>, files: Option<seq<MultipartFile>>, maxImages: int, env: Collaborators)
    ensures var o := Upload(lookup, files, maxImages, env);
            o.response.status in {StatusOk, StatusBadRequest, StatusPayloadTooLarge, StatusUnsupportedMediaType}
            && (o.response.status == StatusOk ==> o.response.body == Images(o.created) && |o.created| == |o.stored|)
  {
    if lookup.Success? && |FileList(files)| <= maxImages {
      RunStatuses(lookup.value.id, FileList(files), 0, env);
    }
  }

  /** The response that stops the loop is 400, 413 or 415. */
  lemma {:induction false} RunStatuses(productId: int, files: seq<MultipartFile>, k: nat, env: Collaborators)
    ensures var t := Run(productId, files, k, env);
            t.stop.Some? ==> t.stop.value.status in {StatusBadRequest, StatusPayloadTooLarge, StatusUnsupportedMediaType}
    decreases |files|
  {
    if files != [] {
      var step := StepOf(productId, files[0], env.uuid(k), env.cleanPath, env.createImage);
      if step.Skip? {
        RunStatuses(productId, files[1..], k, env);
      } else if step.Accept? {
        RunStatuses(productId, files[1..], k + 1, env);
      }
    }
  }

  // ---------------------------------------------------------------------------
  // storeFile's names

  /** The position of the first `c` in `s`, or |s| when there is none. */
  function FirstIndexOf(s: string, c: char): (i: nat)
    ensures i <= |s|
    ensures i < |s| ==> s[i] == c
    ensures forall j | 0 <= j < i :: s[j] != c
    decreases |s|
  {
    if s == [] then 0 else if s[0] == c then 0 else 1 + FirstIndexOf(s[1..], c)
  }

  /**
   * A stored name splits back into its parts: when the id has no '_' (a UUID has
   * none), the text before the first '_' is the id and the text after it is the cleaned name.
   */
  lemma StoredNameSplits(file: MultipartFile, id: string, cleanPath: string -> string)
    requires IsImageFile(file) && file.originalFilename.Some?
    requires '_' !in id
    ensures var name := StoreFileName(file, id, cleanPath).value;
            var i := FirstIndexOf(name, '_');
            i < |name| && name[..i] == id && name[i + 1..] == cleanPath(file.originalFilename.value)
  {
    var name := StoreFileName(file, id, cleanPath).value;
    var cleaned := cleanPath(file.originalFilename.value);
    assert name == id + "_" + cleaned;
    FirstIndexAfter(id, "_" + cleaned, '_');
  }

  lemma {:induction false} FirstIndexAfter(s: string, t: string, c: char)
    requires c !in s && t != [] && t[0] == c
    ensures FirstIndexOf(s + t, c) == |s|
    decreases |s|
  {
    if s != [] {
      assert (s + t)[1..] == s[1..] + t;
      FirstIndexAfter(s[1..], t, c);
    } else {
      assert s + t == t;
    }
  }

  /** Two files stored under different ids get different names, so neither overwrites the other. */
  lemma DistinctIdsDistinctNames(f1: MultipartFile, f2: MultipartFile, id1: string, id2: string, cleanPath: string -> string)
    requires StoreFileName(f1, id1, cleanPath).Success? && StoreFileName(f2, id2, cleanPath).Success?
    requires '_' !in id1 && '_' !in id2 && id1 != id2
    ensures StoreFileName(f1, id1, cleanPath).value != StoreFileName(f2, id2, cleanPath).value
  {
    StoredNameSplits(f1, id1, cleanPath);
    StoredNameSplits(f2, id2, cleanPath);
  }
}
