/** The sprite cache: a map from reference to sprite, filled on first
    request and never emptied.

    `SpriteStore` is the cache itself, a class whose `sprites` map its methods
    update in place; `Sprite` objects carry their identity. Beside it,
    `GetSpriteStep` and `Replay` describe the same behaviour on values (the
    images in the cache, the calls made one after another), and the class's
    method `GetSprite` is proved to follow `GetSpriteStep` and `AddNewSprite`
    to follow `Resolve`. */
module SpriteCache {
  import opened SpriteLoading

  /** A sprite: a wrapper around one image, fixed at construction. */
  class Sprite {
    const image: Image

    constructor (image: Image)
      ensures this.image == image
    {
      this.image := image;
    }
  }

  /** The images held by a map of sprites. */
  function ImagesOf(sprites: map<string, Sprite>): (m: map<string, Image>)
    ensures m.Keys == sprites.Keys
    ensures forall k :: k in sprites ==> m[k] == sprites[k].image
  {
    map k | k in sprites :: sprites[k].image
  }

  /** One call of getSprite, on values: the cache after the call, the image
      returned (or the exception that escapes), whether the resource was
      looked up, and what was logged. */
  datatype Step = Step(cache: map<string, Image>, result: Result<Image>, lookedUp: bool, logged: seq<LogEvent>)

  function GetSpriteStep(cache: map<string, Image>, ref: string, env: Env): (s: Step)
    // a hit returns the cached entry and touches nothing else
    ensures ref in cache ==> s == Step(cache, Ok(cache[ref]), false, [])
    // the resource is looked up exactly on a miss
    ensures s.lookedUp <==> ref !in cache
    // a normal return leaves ref cached, bound to the returned image
    ensures s.result.Ok? ==> ref in s.cache && s.cache[ref] == s.result.value
    // insert-only: at most ref is added, no entry is changed or removed
    ensures s.cache.Keys == cache.Keys + (if s.result.Ok? then {ref} else {})
    ensures forall k :: k in cache ==> k in s.cache && s.cache[k] == cache[k]
    // an escaping exception leaves the cache as it was
    ensures s.result.Err? ==> s.cache == cache
  {
    if ref in cache then
      Step(cache, Ok(cache[ref]), false, [])
    else
      var a := Resolve(ref, env);
      Step(if a.image.Ok? then cache[ref := a.image.value] else cache, a.image, true, a.logged)
  }

  /** A run of getSprite calls, one per reference in order: the final cache,
      each call's result, whether each call was a hit, and the whole log. */
  datatype Run = Run(cache: map<string, Image>, results: seq<Result<Image>>, hits: seq<bool>, log: seq<LogEvent>)

  function Replay(cache: map<string, Image>, refs: seq<string>, env: Env): (r: Run)
    ensures |r.results| == |refs| && |r.hits| == |refs|
    // the cache only grows
    ensures forall k :: k in cache ==> k in r.cache && r.cache[k] == cache[k]
    // every call that returned holds its result in the final cache
    ensures forall i :: 0 <= i < |refs| && r.results[i].Ok? ==>
              refs[i] in r.cache && r.cache[refs[i]] == r.results[i].value
    // the log holds only read errors, at most one per call, and none at all
    // when no reference names an unreadable resource
    ensures |r.log| <= |refs|
    ensures forall e :: e in r.log ==> e == Error(IOException)
    ensures (forall i :: 0 <= i < |refs| ==> !(refs[i] in env.resources && env.resources[refs[i]].Unreadable?)) ==>
              r.log == []
    decreases |refs|
  {
    if refs == [] then
      Run(cache, [], [], [])
    else
      var s := GetSpriteStep(cache, refs[0], env);
      var rest := Replay(s.cache, refs[1..], env);
      Run(rest.cache, [s.result] + rest.results, [!s.lookedUp] + rest.hits, s.logged + rest.log)
  }

  /** Load once, reuse forever: once a call has returned an image for a
      reference, every later call for that reference is a hit and returns
      the same image. */
  lemma {:induction false} ReplayRepeatsEarlierResult(cache: map<string, Image>, refs: seq<string>, env: Env, i: nat, j: nat)
    requires i < j < |refs| && refs[i] == refs[j]
    requires Replay(cache, refs, env).results[i].Ok?
    ensures Replay(cache, refs, env).hits[j]
    ensures Replay(cache, refs, env).results[j] == Replay(cache, refs, env).results[i]
    decreases i
  {
    var s := GetSpriteStep(cache, refs[0], env);
    var rest := Replay(s.cache, refs[1..], env);
    if i == 0 {
      // the first call cached refs[0]; the calls in between keep that entry
      var pre := Replay(s.cache, refs[1..j], env);
      ReplayPrefix(s.cache, refs[1..], env, j - 1);
      assert refs[1..][..j - 1] == refs[1..j];
      assert refs[0] in pre.cache && pre.cache[refs[0]] == s.result.value;
      assert refs[1..][j - 1] == refs[0];
    } else {
      ReplayRepeatsEarlierResult(s.cache, refs[1..], env, i - 1, j - 1);
    }
  }

  /** The run of a prefix of the references is the start of the whole run:
      call n sees the cache left by the first n calls. */
  lemma {:induction false} ReplayPrefix(cache: map<string, Image>, refs: seq<string>, env: Env, n: nat)
    requires n < |refs|
    ensures var pre := Replay(cache, refs[..n], env);
            var s := GetSpriteStep(pre.cache, refs[n], env);
            Replay(cache, refs, env).results[n] == s.result &&
            Replay(cache, refs, env).hits[n] == !s.lookedUp
    decreases n
  {
    var whole := Replay(cache, refs, env);
    var s := GetSpriteStep(cache, refs[0], env);
    var rest := Replay(s.cache, refs[1..], env);
    assert whole.results == [s.result] + rest.results && whole.hits == [!s.lookedUp] + rest.hits;
    if n == 0 {
      assert refs[..0] == [];
      assert Replay(cache, refs[..0], env).cache == cache;
    } else {
      var shorter := refs[1..][..n - 1];
      assert refs[..n][0] == refs[0] && refs[..n][1..] == shorter;
      assert Replay(cache, refs[..n], env).cache == Replay(s.cache, shorter, env).cache;
      assert refs[1..][n - 1] == refs[n];
      ReplayPrefix(s.cache, refs[1..], env, n - 1);
    }
  }

  /** Insert-only over a whole run: every key of the final cache was
      already cached or was returned by one of the calls. */
  lemma {:induction false} ReplayAddsOnlyReturnedKeys(cache: map<string, Image>, refs: seq<string>, env: Env, k: string)
    requires k in Replay(cache, refs, env).cache && k !in cache
    ensures exists i :: 0 <= i < |refs| && refs[i] == k && Replay(cache, refs, env).results[i].Ok?
    decreases |refs|
  {
    var s := GetSpriteStep(cache, refs[0], env);
    var rest := Replay(s.cache, refs[1..], env);
    if k in s.cache {
      assert refs[0] == k && Replay(cache, refs, env).results[0].Ok?;
    } else {
      ReplayAddsOnlyReturnedKeys(s.cache, refs[1..], env, k);
      var j :| 0 <= j < |refs| - 1 && refs[1..][j] == k && rest.results[j].Ok?;
      assert refs[j + 1] == k && Replay(cache, refs, env).results[j + 1].Ok?;
    }
  }

  /** The sprite store. `log` stands for what the class's logger receives and
      `lookups` for the resource lookups it makes, in order. */
  class SpriteStore {
    var sprites: map<string, Sprite>
    ghost var log: seq<LogEvent>
    ghost var lookups: seq<string>

    /** Every sprite was created for its own reference: distinct references
        hold distinct sprite objects. */
    ghost predicate Valid()
      reads this
    {
      forall k1, k2 :: k1 in sprites && k2 in sprites && k1 != k2 ==> sprites[k1] != sprites[k2]
    }

    constructor ()
      ensures Valid()
      ensures sprites == map[] && log == [] && lookups == []
    {
      sprites := map[];
      log := [];
      lookups := [];
    }

    /** Retrieve the sprite for ref, making and caching it on a miss. An
        exception that escapes addNewSprite is returned as Err. */
    method GetSprite(ref: string, env: Env) returns (r: Result<Sprite>)
      requires Valid()
      modifies this
      ensures Valid()
      // the model on values: same cache of images, same outcome, same log
      ensures var s := GetSpriteStep(ImagesOf(old(sprites)), ref, env);
              ImagesOf(sprites) == s.cache && log == old(log) + s.logged &&
              r.Ok? == s.result.Ok? && (r.Ok? ==> r.value.image == s.result.value) &&
              (r.Err? ==> r.error == s.result.error)
      // a hit: the stored sprite itself, and nothing changes, nothing is looked up
      ensures ref in old(sprites) ==>
                r == Ok(old(sprites)[ref]) && sprites == old(sprites) &&
                log == old(log) && lookups == old(lookups)
      // a miss: exactly one lookup, of ref
      ensures ref !in old(sprites) ==> lookups == old(lookups) + [ref]
      // a miss that returns: one fresh sprite added under ref, all else kept
      ensures ref !in old(sprites) && r.Ok? ==>
                fresh(r.value) && sprites == old(sprites)[ref := r.value]
      // a normal return: ref is cached and the stored sprite is returned
      ensures r.Ok? ==> ref in sprites && r.value == sprites[ref]
      // an escaping exception leaves the map unchanged
      ensures r.Err? ==> sprites == old(sprites)
    {
      if ref !in sprites {
        var failure := AddNewSprite(ref, env);
        if failure.Err? {
          return Err(failure.error);
        }
      }
      r := Ok(sprites[ref]);
    }

    /** Make a sprite for ref and put it in the map. The result is Err with
        the exception that escapes before the put, if any. */
    method AddNewSprite(ref: string, env: Env) returns (r: Result<()>)
      requires Valid()
      modifies this
      ensures Valid()
      ensures var a := Resolve(ref, env);
              log == old(log) + a.logged && lookups == old(lookups) + [ref] &&
              r.Ok? == a.image.Ok? && (r.Err? ==> r.error == a.image.error)
      ensures r.Ok? ==>
                ref in sprites && fresh(sprites[ref]) &&
                sprites[ref].image == Resolve(ref, env).image.value &&
                sprites == old(sprites)[ref := sprites[ref]]
      ensures r.Err? ==> sprites == old(sprites)
    {
      lookups := lookups + [ref];
      var image: Result<Image>;
      var tried := LookupAndLoad(ref, env);
      if tried == Err(IOException) {
        log := log + [Error(IOException)];
        image := MakeSubstituteImage(env.headless);
      } else {
        image := tried;
      }
      if image.Err? {
        return Err(image.error);
      }
      var sprite := new Sprite(image.value);
      sprites := sprites[ref := sprite];
      r := Ok(());
    }
  }

  /** Two calls in a row for the same reference return the very same sprite,
      and the second is a hit. */
  method GetSpriteTwice(store: SpriteStore, ref: string, env: Env) returns (first: Result<Sprite>, second: Result<Sprite>)
    requires store.Valid()
    modifies store
    ensures store.Valid()
    ensures first.Ok? ==> second == first
    ensures first.Ok? ==> store.lookups == old(store.lookups) + (if ref in old(store.sprites) then [] else [ref])
  {
    first := store.GetSprite(ref, env);
    ghost var lookupsBetween := store.lookups;
    second := store.GetSprite(ref, env);
    assert first.Ok? ==> store.lookups == lookupsBetween;
  }
}
