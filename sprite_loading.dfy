/** How SpriteStore picks the image for a new sprite: load it from the
    resource named by the reference, or draw the 20x20 substitute dot.

    Images are modelled by their size only. Resource lookup, decoding and
    the display environment are not computed here: they are described by an
    `Env` value that the caller passes in. */
module SpriteLoading {

  /** A width or height in pixels: the graphics configuration only makes
      images of positive size, and decoded images always have one. */
  type Pixels = n: int | 1 <= n witness 1

  /** An image, known only by its width and height. */
  datatype Image = Image(width: Pixels, height: Pixels)

  /** What decoding an existing resource yields. */
  datatype Content =
    | Decodable(width: Pixels, height: Pixels)  // the image reader returns an image of this size
    | Unreadable                          // the image reader throws an IOException
    | Undecodable                         // the image reader returns null (no reader for the format)

  /** The world as addNewSprite sees it: the resources the class loader can
      find, by name, and whether the graphics environment is headless (then
      asking for the default screen configuration throws). */
  datatype Env = Env(resources: map<string, Content>, headless: bool)

  /** The exceptions that can arise while a sprite image is made. */
  datatype Exception = IOException | NullPointerException | HeadlessException

  /** One message sent to the logger, at error severity, with its cause. */
  datatype LogEvent = Error(cause: Exception)

  datatype Result<T> = Ok(value: T) | Err(error: Exception)

  /** The outcome of picking an image: the image or the exception that
      escapes, and what was logged on the way. */
  datatype Attempt = Attempt(image: Result<Image>, logged: seq<LogEvent>)

  /** Width and height of the substitute image. */
  const SubstituteSize: Pixels := 20

  /** The substitute: a green dot on a transparent 20x20 square. */
  const Substitute: Image := Image(SubstituteSize, SubstituteSize)

  /** Looking up the default screen configuration, which every image
      creation goes through: it fails exactly when the display is headless. */
  function GraphicsConfiguration(headless: bool): (r: Result<()>)
    ensures r.Ok? <==> !headless
    ensures r.Err? ==> r.error == HeadlessException
  {
    if headless then Err(HeadlessException) else Ok(())
  }

  /** Decode a found resource and copy it into an accelerated image of the
      same size. The configuration is asked for before the decoded image's
      width is read, so on a headless display a null decode surfaces as a
      HeadlessException rather than a NullPointerException. */
  function LoadImageFromDisk(c: Content, headless: bool): (r: Result<Image>)
    ensures r.Ok? <==> c.Decodable? && !headless
    ensures r.Ok? ==> r.value.width == c.width && r.value.height == c.height
    ensures r == Err(IOException) <==> c.Unreadable?
    ensures c.Undecodable? && !headless ==> r == Err(NullPointerException)
    ensures headless && !c.Unreadable? ==> r == Err(HeadlessException)
  {
    match c
    case Unreadable => Err(IOException)
    case Undecodable =>
      var gc := GraphicsConfiguration(headless);
      if gc.Err? then Err(gc.error) else Err(NullPointerException)
    case Decodable(w, h) =>
      var gc := GraphicsConfiguration(headless);
      if gc.Err? then Err(gc.error) else Ok(Image(w, h))
  }

  /** Draw the substitute image. */
  function MakeSubstituteImage(headless: bool): (r: Result<Image>)
    ensures r.Ok? <==> !headless
    ensures r.Ok? ==> r.value.width == 20 && r.value.height == 20
    ensures r.Err? ==> r.error == HeadlessException
  {
    var gc := GraphicsConfiguration(headless);
    if gc.Err? then Err(gc.error) else Ok(Substitute)
  }

  /** The body of the try block: load the resource when the class loader
      finds it, otherwise draw the substitute. */
  function LookupAndLoad(ref: string, env: Env): (r: Result<Image>)
    ensures r == Err(IOException) <==> ref in env.resources && env.resources[ref].Unreadable?
    ensures ref !in env.resources ==> r == MakeSubstituteImage(env.headless)
  {
    if ref in env.resources then LoadImageFromDisk(env.resources[ref], env.headless)
    else MakeSubstituteImage(env.headless)
  }

  /** The image addNewSprite wraps in its new sprite. Only an IOException is
      caught: it is logged and the substitute is drawn instead; every other
      exception escapes. */
  function Resolve(ref: string, env: Env): (a: Attempt)
    // which outcomes log: exactly one error, and only for an unreadable resource
    ensures |a.logged| <= 1
    ensures a.logged != [] <==> ref in env.resources && env.resources[ref].Unreadable?
    ensures a.logged != [] ==> a.logged == [Error(IOException)]
    // which outcomes escape: a headless display, or a resource no reader decodes
    ensures a.image.Ok? <==> !env.headless && !(ref in env.resources && env.resources[ref].Undecodable?)
    ensures a.image.Err? ==> a.image.error != IOException
    ensures a.image.Err? ==> a.image.error == (if env.headless then HeadlessException else NullPointerException)
    // which image is produced
    ensures a.image.Ok? && ref in env.resources && env.resources[ref].Decodable? ==>
              a.image.value == Image(env.resources[ref].width, env.resources[ref].height)
    ensures a.image.Ok? && !(ref in env.resources && env.resources[ref].Decodable?) ==>
              a.image.value == Substitute
  {
    var tried := LookupAndLoad(ref, env);
    if tried == Err(IOException) then
      Attempt(MakeSubstituteImage(env.headless), [Error(IOException)])
    else
      Attempt(tried, [])
  }
}
