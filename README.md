# SpriteStore: a memoizing sprite cache with a substitute image

This project models the sprite cache of a Space Invaders game
(`SpriteStore` in `src/main/java/thyscom/spaceinvaders/SpriteStore.java`) in
Dafny and proves what it does.

The store keeps a map from a reference string to a `Sprite`. `getSprite(ref)`
returns the cached sprite on a hit. On a miss it calls `addNewSprite(ref)`,
which picks an image, wraps it in a new `Sprite` and puts it in the map under
`ref`. The image is chosen as follows:

- the class loader finds the resource and it decodes: the image is copied into an
  accelerated image of the same size;
- the resource is not found: a 20x20 substitute (a green dot) is drawn, and
  nothing is logged;
- reading the resource throws an `IOException`: the exception is logged at error
  severity and the substitute is drawn.

Only `IOException` is caught. Two other failures escape before the `put`, so
the map is left unchanged:

- the image reader returns `null` for a format it cannot decode, and reading the
  width of that null image throws a `NullPointerException`;
- the display is headless, and asking for the default screen configuration throws
  a `HeadlessException`.

The default configuration is asked for before the null image's width is read.
So on a headless display an undecodable resource escapes as a
`HeadlessException`. For an unreadable resource on a headless display, the
error is logged first and then the `HeadlessException` escapes from drawing the
substitute.

Two files:

- `sprite_loading.dfy` (module `SpriteLoading`) holds the image choice as
  functions. Images are known by width and height only. The outside world is an
  `Env` value: the resources the class loader can find, each with what decoding
  it yields (`Decodable(w, h)`, `Unreadable`, `Undecodable`), and whether the
  display is headless.
- `sprite_store.dfy` (module `SpriteCache`) holds the `Sprite` and `SpriteStore`
  classes. The store's `sprites` map is a field that `GetSprite` and
  `AddNewSprite` update in place. The ghost fields `log` and `lookups` record
  what the logger receives and which resources were looked up. The same
  behaviour is also written on values: `GetSpriteStep` is one call, and `Replay`
  is a run of calls. `GetSprite` is proved to follow `GetSpriteStep`, and
  `AddNewSprite` to follow `Resolve`.
  The lemmas about `Replay` state "load once, reuse forever" across any number
  of calls.

The store's invariant `Valid` states that distinct references hold distinct
sprite objects, because each sprite is created fresh for its own reference.
Every method of the store preserves it.

`getSprite` is documented to return a sprite (SpriteStore.java:51), and
`addNewSprite` to throw `HeadlessException` (SpriteStore.java:65). The code
catches only `IOException`, so a `NullPointerException` from a null decode
escapes as well. The model returns both escaping exceptions as `Err`: a
`HeadlessException` on a headless display, a `NullPointerException` otherwise.

## Model

| member | source | states |
|---|---|---|
| `SpriteLoading.GraphicsConfiguration` | src/main/java/thyscom/spaceinvaders/SpriteStore.java:115-117 | The default screen configuration is obtained exactly when the display is not headless; otherwise the failure is a HeadlessException. |
| `SpriteLoading.LoadImageFromDisk` | src/main/java/thyscom/spaceinvaders/SpriteStore.java:93-101 | An image is produced exactly when the resource decodes and the display is not headless, and it has the decoded width and height. An IOException arises exactly for an unreadable resource. A null decode gives a NullPointerException, or a HeadlessException on a headless display, because the configuration is asked for first. |
| `SpriteLoading.MakeSubstituteImage` | src/main/java/thyscom/spaceinvaders/SpriteStore.java:103-113 | The substitute is produced exactly when the display is not headless and is 20x20; otherwise the failure is a HeadlessException. |
| `SpriteLoading.LookupAndLoad` | src/main/java/thyscom/spaceinvaders/SpriteStore.java:74-82 | A resource that is not found never raises an IOException: it goes straight to the substitute. An IOException arises exactly when the found resource is unreadable. |
| `SpriteLoading.Resolve` | src/main/java/thyscom/spaceinvaders/SpriteStore.java:67-86 | At most one error is logged, and one is logged exactly when the resource is unreadable. An image results exactly when the display is not headless and the resource is not undecodable. An IOException never escapes: the escaping exception is a HeadlessException on a headless display and a NullPointerException otherwise. The image has the decoded size for a decodable resource, and is the 20x20 substitute otherwise. |
| `SpriteCache.Sprite.constructor` | src/main/java/thyscom/spaceinvaders/SpriteStore.java:89 | A new sprite wraps the image it is given. |
| `SpriteCache.GetSpriteStep` | src/main/java/thyscom/spaceinvaders/SpriteStore.java:53-60 | A hit returns the cached entry, changes nothing, looks nothing up and logs nothing. A lookup happens exactly on a miss. A normal return leaves ref cached with the returned image. The cache gains only ref, and only when an image is returned. No entry changes, and an escaping exception leaves the cache as it was. |
| `SpriteCache.Replay` | src/main/java/thyscom/spaceinvaders/SpriteStore.java:56-59 | Over a run of calls, the cache only grows and keeps every old entry. Every call that returned has its image in the final cache under its reference. The log holds only IOException errors, at most one per call, and is empty when no reference names an unreadable resource. |
| `SpriteCache.ReplayRepeatsEarlierResult` | src/main/java/thyscom/spaceinvaders/SpriteStore.java:56-59 | Once a call for a reference has returned, every later call for that reference is a hit and returns the same image. |
| `SpriteCache.ReplayAddsOnlyReturnedKeys` | src/main/java/thyscom/spaceinvaders/SpriteStore.java:56-90 | Every key of the cache after a run was either cached before or returned by one of the run's calls. |
| `SpriteCache.SpriteStore.constructor` | src/main/java/thyscom/spaceinvaders/SpriteStore.java:36 | A new store has an empty map, an empty log and no lookups, and satisfies the invariant. |
| `SpriteCache.SpriteStore.GetSprite` | src/main/java/thyscom/spaceinvaders/SpriteStore.java:53-60 | The images in the map, the outcome and the log follow GetSpriteStep. A hit returns the stored sprite object and changes nothing. A miss looks up ref once. A miss that returns adds one fresh sprite under ref and keeps every other entry. A normal return gives exactly the sprite stored under ref. An escaping exception leaves the map unchanged. Distinct references keep distinct sprites. |
| `SpriteCache.SpriteStore.AddNewSprite` | src/main/java/thyscom/spaceinvaders/SpriteStore.java:67-91 | The store looks up ref once and logs what Resolve logs. If an image results, the map is the old map with ref bound to a fresh sprite holding that image. Otherwise the map is unchanged and the escaping exception is returned. |
| `SpriteCache.GetSpriteTwice` | src/main/java/thyscom/spaceinvaders/SpriteStore.java:53-60 | When the first of two successive calls for the same reference returns, the second returns the identical sprite object and looks nothing up. |

## Left out

- The singleton (`single`, `getInstance`) is left out: the model works on one constructed `SpriteStore`.
- Drawing is left out. This covers `createCompatibleImage`, `drawImage`, the green ellipse and `Transparency.BITMASK`. An image is modelled by its width and height only.
- Resource lookup (`ClassLoader.getResource`) and decoding (`ImageIO.read`) are left out. They are abstracted to the `Env` value passed to each call: the found resources with their decode outcome, and whether the display is headless.
- Logging is not real output. `log` is a ghost sequence of error events, each with its cause.
- The class `Sprite` is not part of this model. It is taken to be an immutable wrapper around one image.
- `Replay` uses one `Env` for a whole run, so the same resource gives the same outcome on every call. The class methods take a separate `Env` on each call.
- Exceptions other than the three named are not modelled. These include running out of memory. Widths and heights are positive (`Pixels`), as decoded images and `createCompatibleImage` require, so a size rejected by `createCompatibleImage` cannot arise.
- Concurrent use is not modelled. The map is not synchronised in the source.
