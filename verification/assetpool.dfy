/** The registry of loaded images (src/dataStructure/AssetPool.java): sprites
    and spritesheets, each keyed by the absolute form of the path they were
    requested under. Reading an image file is a parameter of the model. */
module Assets {
  import opened Results
  import opened Sprites
  import opened Spritesheets

  /** The working directory the JVM resolves relative paths against. */
  type Directory = s: string | |s| > 0 && s[0] == '/' witness "/"

  /** File.getAbsolutePath on a Unix-like system: an absolute path is kept,
      the empty path is the working directory, anything else is resolved
      against the working directory. */
  function AbsolutePath(cwd: Directory, p: string): (a: string)
    ensures |a| > 0 && a[0] == '/'
    ensures |p| > 0 && p[0] == '/' ==> a == p
  {
    if |p| > 0 && p[0] == '/' then p
    else if p == [] then cwd
    else cwd + "/" + p
  }

  /** Taking the absolute path of an absolute path changes nothing, so the
      pool's habit of resolving an already resolved path is harmless. */
  lemma AbsolutePathIdempotent(cwd: Directory, p: string)
    ensures AbsolutePath(cwd, AbsolutePath(cwd, p)) == AbsolutePath(cwd, p)
  {
  }

  /** What reading an image file gives, for the file's absolute path: None
      when there is no such file. */
  type Loader = string -> Option<Image>

  datatype Pool = Pool(cwd: Directory, sprites: map<string, Sprite>, sheets: map<string, Spritesheet>)

  /** The pool before anything is registered. */
  function EmptyPool(cwd: Directory): (pool: Pool)
    ensures pool.cwd == cwd && pool.sprites == map[] && pool.sheets == map[]
  {
    Pool(cwd, map[], map[])
  }

  predicate HasSprite(pool: Pool, p: string) {
    AbsolutePath(pool.cwd, p) in pool.sprites
  }

  predicate HasSpritesheet(pool: Pool, p: string) {
    AbsolutePath(pool.cwd, p) in pool.sheets
  }

  /** Two spellings of one file, relative and absolute, find the same entries. */
  lemma SpellingsAgree(pool: Pool, p: string)
    ensures HasSprite(pool, p) == HasSprite(pool, AbsolutePath(pool.cwd, p))
    ensures HasSpritesheet(pool, p) == HasSpritesheet(pool, AbsolutePath(pool.cwd, p))
  {
    AbsolutePathIdempotent(pool.cwd, p);
  }

  /** The registered sprite for p. */
  function CachedSprite(pool: Pool, p: string): Sprite
    requires HasSprite(pool, p)
  {
    pool.sprites[AbsolutePath(pool.cwd, p)]
  }

  /** The file constructor of Sprite: fails on an already registered path
      and on a missing file, otherwise wraps the image read from the file. */
  function LoadSprite(pool: Pool, p: string, load: Loader): (r: Result<Sprite>)
    ensures HasSprite(pool, p) ==> r == Fail(DuplicateSprite(p))
    ensures !HasSprite(pool, p) && load(AbsolutePath(pool.cwd, p)).None? ==> r == Fail(MissingFile(AbsolutePath(pool.cwd, p)))
    ensures r.Ok? ==> (load(AbsolutePath(pool.cwd, p)).Some? &&
                       r.value == FromImage(load(AbsolutePath(pool.cwd, p)).value, p))
  {
    if HasSprite(pool, p) then Fail(DuplicateSprite(p))
    else match load(AbsolutePath(pool.cwd, p))
      case None => Fail(MissingFile(AbsolutePath(pool.cwd, p)))
      case Some(image) => Ok(FromImage(image, p))
  }

  /** addSprite: registering a path twice is fatal. */
  function AddSprite(pool: Pool, p: string, s: Sprite): (r: Result<Pool>)
    ensures r.Ok? <==> !HasSprite(pool, p)
    ensures r.Fail? ==> r.error == DuplicateSprite(AbsolutePath(pool.cwd, p))
    ensures r.Ok? ==> HasSprite(r.value, p) && CachedSprite(r.value, p) == s
    ensures r.Ok? ==> r.value.cwd == pool.cwd && r.value.sheets == pool.sheets
    ensures r.Ok? ==> forall q :: q in pool.sprites ==> q in r.value.sprites && r.value.sprites[q] == pool.sprites[q]
  {
    var key := AbsolutePath(pool.cwd, p);
    if key in pool.sprites then Fail(DuplicateSprite(key))
    else Ok(pool.(sprites := pool.sprites[key := s]))
  }

  /** getSprite: the registered sprite, or the file loaded, registered and
      returned. */
  function GetSprite(pool: Pool, p: string, load: Loader): (r: Result<(Pool, Sprite)>)
    ensures HasSprite(pool, p) ==> r == Ok((pool, CachedSprite(pool, p)))
    ensures !HasSprite(pool, p) ==> (r.Ok? <==> load(AbsolutePath(pool.cwd, p)).Some?)
    ensures r.Ok? ==> HasSprite(r.value.0, p) && CachedSprite(r.value.0, p) == r.value.1
    ensures r.Ok? ==> r.value.0.cwd == pool.cwd && r.value.0.sheets == pool.sheets
    ensures !HasSprite(pool, p) && r.Ok? ==> r.value.1 == FromImage(load(AbsolutePath(pool.cwd, p)).value, p)
    ensures r.Ok? ==> r.value.0.sprites == pool.sprites[AbsolutePath(pool.cwd, p) := r.value.1]
  {
    var key := AbsolutePath(pool.cwd, p);
    AbsolutePathIdempotent(pool.cwd, p);
    if HasSprite(pool, key) then Ok((pool, pool.sprites[key]))
    else
      var s :- LoadSprite(pool, p, load);
      // addSprite cannot refuse here: the path was just found absent.
      var added := pool.(sprites := pool.sprites[key := s]);
      Ok((added, added.sprites[key]))
  }

  /** Once a sprite is registered, asking again under any spelling returns
      it and changes nothing, whatever the loader would now read. */
  lemma GetSpriteCaches(pool: Pool, p: string, load: Loader, load': Loader)
    requires GetSprite(pool, p, load).Ok?
    ensures var (pool', s) := GetSprite(pool, p, load).value;
      GetSprite(pool', p, load') == Ok((pool', s)) &&
      GetSprite(pool', AbsolutePath(pool.cwd, p), load') == Ok((pool', s))
  {
    var (pool', s) := GetSprite(pool, p, load).value;
    AbsolutePathIdempotent(pool.cwd, p);
    assert HasSprite(pool', AbsolutePath(pool.cwd, p));
  }

  /** getSpritesheet: an unregistered sheet is fatal. */
  function GetSpritesheet(pool: Pool, p: string): (r: Result<Spritesheet>)
    ensures r.Ok? <==> HasSpritesheet(pool, p)
    ensures r.Ok? ==> r.value == pool.sheets[AbsolutePath(pool.cwd, p)]
    ensures r.Fail? ==> r.error == MissingSpritesheet(p)
  {
    var key := AbsolutePath(pool.cwd, p);
    if key in pool.sheets then Ok(pool.sheets[key]) else Fail(MissingSpritesheet(p))
  }

  /** addSpritesheet: does nothing for a registered path; otherwise builds
      the sheet from the parent sprite, which getSprite loads and registers
      first when it is not yet in the pool. */
  function AddSpritesheet(pool: Pool, p: string, tileWidth: int, tileHeight: int, spacing: int,
                          columns: int, size: int, load: Loader): (r: Result<Pool>)
    requires HasSpritesheet(pool, p) || columns >= 1 || size <= 0
    ensures HasSpritesheet(pool, p) ==> r == Ok(pool)
    ensures r.Ok? ==> HasSpritesheet(r.value, p) && r.value.cwd == pool.cwd
    ensures r.Ok? ==> forall q :: q in pool.sheets ==> q in r.value.sheets
    ensures r.Ok? && !HasSpritesheet(pool, p) ==>
      (HasSprite(r.value, p) &&
       NewSpritesheet(CachedSprite(r.value, p), tileWidth, tileHeight, spacing, columns, size, p) ==
         Ok(r.value.sheets[AbsolutePath(pool.cwd, p)]))
    ensures !HasSpritesheet(pool, p) ==>
      (r.Ok? <==> GetSprite(pool, p, load).Ok? &&
                  AllFit(GetSprite(pool, p, load).value.1.image, tileWidth, tileHeight, spacing, columns, size))
    ensures !HasSpritesheet(pool, p) && GetSprite(pool, p, load).Fail? ==> r == Fail(GetSprite(pool, p, load).error)
    ensures !HasSpritesheet(pool, p) && GetSprite(pool, p, load).Ok? && r.Fail? ==>
      (r.error.SubimageOutside? &&
       MisfitAt(GetSprite(pool, p, load).value.1.image, tileWidth, tileHeight, spacing, columns, size, r.error.tile))
  {
    var key := AbsolutePath(pool.cwd, p);
    if key in pool.sheets then Ok(pool)
    else
      var (withParent, parent) :- GetSprite(pool, p, load);
      var sheet :- NewSpritesheet(parent, tileWidth, tileHeight, spacing, columns, size, p);
      Ok(withParent.(sheets := withParent.sheets[key := sheet]))
  }

  /** A second addSpritesheet for the same path changes nothing, whatever
      its other arguments. */
  lemma AddSpritesheetIdempotent(pool: Pool, p: string, tileWidth: int, tileHeight: int, spacing: int,
                                 columns: int, size: int, load: Loader,
                                 tileWidth': int, tileHeight': int, spacing': int, columns': int, size': int, load': Loader)
    requires HasSpritesheet(pool, p) || columns >= 1 || size <= 0
    requires AddSpritesheet(pool, p, tileWidth, tileHeight, spacing, columns, size, load).Ok?
    ensures var pool' := AddSpritesheet(pool, p, tileWidth, tileHeight, spacing, columns, size, load).value;
      AddSpritesheet(pool', p, tileWidth', tileHeight', spacing', columns', size', load') == Ok(pool')
  {
  }
}
