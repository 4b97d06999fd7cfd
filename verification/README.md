# Geometry Dash engine core, modelled in Dafny

This project models the core of a small Java 2D engine for a Geometry-Dash-like
game. The model covers these parts:

- **Persistence.**
  - The writer: `Serialize`, with its property helpers, and the `serialize` method of each class.
  - The reader: `Parser`, a cursor over the level text, and each class's `deserialize`.
  - Level import (`importLevel`) and level export (the editor's `export`).
- **The entity model.**
  - `GameObject`, its components, `Transform` and `Vector2`.
  - Sprites, sprite sheets and the asset pool, which caches images and sheets by absolute path.
- **The frame logic of the two scenes.**
  - `LevelScene`: the camera follows the player, then every object is updated, checked for collision with the player and resolved.
  - `LevelEditorScene`: the camera is clamped, the objects, camera controls, menu and cursor are updated, and then the S, L and E keys are read.
  - The component updates behind those frames: the player, rigid body, ground and snap-to-grid components.
- **Rendering.** The renderer draws in z-index order and offsets each object by the camera.

Everything is stated with immutable datatypes and pure functions:

- **Mutation.** A method that mutates objects becomes a function from the old value to the new one.
- **The scene.** A scene is a `Scenes.World`. Its fields are:
  - the name;
  - the camera;
  - the game-object list;
  - the renderer, which holds `Ref` handles to objects;
  - the level's player and the level's `playerBounds` box;
  - the editor's cursor;
  - the editor flag.
- **Errors.** Everything the Java code does on malformed input becomes `Results.Fail` with a `Failure` value:
  - `System.exit` after a parse error;
  - a null-reference exception on a missing component;
  - an index out of range;
  - the `RasterFormatException` of `getSubimage` when a spritesheet tile's region leaves the image (`SubimageOutside`);
  - a `ConcurrentModificationException` when an update adds to the list being iterated.

The main results are these:

- **Persistence round trip.**
  - Each primitive that the writer emits is read back as the same value, and the reader stops where the text ends (`Grammar`). For strings this needs a value and a key without a quote: the writer does not escape them, and a quote in a value cuts the read short (`Grammar.QuoteCutsValue`).
  - This holds for a vector, a transform, a box, a sprite, a component and a game object (`...DeserializeRead`).
  - It holds for a whole export: reading the exported text back yields the serializable objects in order, each as the reader rebuilds it (`LevelFiles.ExportRoundTrip`). This needs object names and sprite file paths without a quote, for the same reason.
  - The editor's save writes nothing for its fixed player and ground, so only the objects that follow them come back (`Editors.SaveLoad`).
- **Rendering order.** Render draws the buckets in increasing z order, each bucket in submission order (`Rendering.Render`, `Rendering.Sweep`).
- **Frame logic.**
  - The camera follows the player with the documented offsets (`LevelScenes.Follow`).
  - A collision either lands the player on the obstacle or sends it to the respawn point (`LevelScenes.Collide`).
  - In the editor, the keys are read in the priority S, then L, then E (`Editors.KeyCommand`).
  - A frame of the editor with space pressed throws, because the editor's player has no rigid body (`Editors.SpaceThrows`).

## Model

| member | source | states |
|---|---|---|
| Text.NatTextValue | src/file/Parser.java:133-144 | the decimal text printed for a natural number reads back as that number |
| Text.IntValue | src/file/Parser.java:133-144 | Integer.parseInt accepts a token only as digits with an optional leading minus, and yields the digits' value with the sign applied |
| Text.IntRoundTrip | src/file/Serialize.java:41-43 | every 32-bit int printed by addIntProperty parses back to itself |
| Text.FloatRoundTrip | src/file/Serialize.java:55-57 | a whole-valued float printed as "<digits>.0" parses back to the same value |
| Text.FloatTextChars | src/file/Serialize.java:55-57 | a printed float is non-empty and made only of digits, '-' and '.' |
| Text.IntTextChars | src/file/Serialize.java:41-43 | a printed int is non-empty and made only of digits and '-' |
| Serializer.AddTabs | src/file/Serialize.java:114-120 | addTabs(n) is exactly n tab characters, and none when n is negative |
| Serializer.AddEnding | src/file/Serialize.java:129-134 | addEnding writes an optional ',' followed by an optional newline, in that order |
| Parser.OpenFile | src/file/Parser.java:34-58 | a missing file gives an empty buffer and an unreadable one is an error; otherwise the cursor starts at offset 0 on line 1 |
| Parser.Peek | src/file/Parser.java:90-92 | peek fails exactly at the end of the buffer, and otherwise returns the current byte |
| Parser.Advance | src/file/Parser.java:99-103 | advance moves forward by one byte and keeps the line |
| Parser.SkipWhitespace | src/file/Parser.java:78-83 | skipWhitespace only moves forward, and stops at the end or on a byte that is not whitespace |
| Parser.SkipWhitespaceSkips | src/file/Parser.java:78-83 | every byte skipped is a space, newline, tab or carriage return |
| Parser.SkipWhitespaceLines | src/file/Parser.java:78-83 | the line counter grows by the number of newlines skipped |
| Parser.SkipWhitespaceIdempotent | src/file/Parser.java:78-83 | skipping whitespace twice is the same as skipping it once |
| Parser.Consume | src/file/Parser.java:110-117 | consume(c) succeeds exactly when the next byte is c and then advances; otherwise it reports the expected and the actual byte, or the end of input |
| Parser.ScanNumber | src/file/Parser.java:133-144 | the number scan stops on a byte that cannot continue a number, and a scan that reaches the end of the buffer fails with OutOfInput, the only way it fails |
| Parser.ScanNumberRun | src/file/Parser.java:133-144 | every byte scanned can be part of a number; the scan fails exactly when the rest of the buffer is all number bytes |
| Parser.ParseInt | src/file/Parser.java:133-144 | parseInt reads the whole run of digits and '-' after the whitespace and stops where that scan stops; its value is what Integer.parseInt gives for the run; it fails with OutOfInput exactly when the run reaches the end of the buffer, because the loop guard reads past it, and with BadNumber carrying the run exactly when Integer.parseInt rejects it |
| Parser.ParseDouble | src/file/Parser.java:151-162 | parseDouble reads the whole run of digits, '-' and '.' after the whitespace and stops where that scan stops; its value is the decimal value of the run; it fails with OutOfInput exactly when the run reaches the end of the buffer, and with BadNumber carrying the run exactly when the run is not a decimal |
| Parser.ParseFloat | src/file/Parser.java:169-173 | parseFloat's value is the decimal value of the run between the whitespace and an 'f' that must follow the run directly; a failed double is passed on unchanged, and any other byte after the run fails with Unexpected('f', that byte, line) |
| Parser.ScanStringRun | src/file/Parser.java:180-193 | the scan for the closing quote passes over no quote |
| Parser.ParseString | src/file/Parser.java:180-193 | parseString returns exactly the bytes between two quotes, which contain no quote |
| Parser.ConsumeWord | src/file/Parser.java:200-223 | a word is consumed only when the buffer holds that word at the cursor |
| Parser.ParseBoolean | src/file/Parser.java:200-223 | parseBoolean reads "true" or "false" after whitespace; any other first byte is a NotBoolean error |
| Parser.CheckString | src/file/Parser.java:352-358 | checkString succeeds exactly when the string read equals the expected key; otherwise it fails with both keys and the line |
| Parser.ConsumeKey | src/file/Parser.java:266-271 | the property head finds the text `"key":` at the first non-blank byte and leaves the cursor just past it, on the line the key began on; a different key fails with WrongKey(key, the key found, line); the right key not directly followed by ':' fails as consume(':') does; it succeeds exactly when the key matches and a ':' follows |
| Parser.ConsumeStringProperty | src/file/Parser.java:266-271 | the text `"key":` sits at the first non-blank byte, a different key fails with WrongKey(key, the key found, line), and the right key not directly followed by ':' fails as consume(':') does; on success only blanks come between the ':' and the value's opening quote, the value is the quote-free text up to the next quote, and the reader stops after that quote |
| Parser.ConsumeIntProperty | src/file/Parser.java:279-284 | the text `"key":` sits at the first non-blank byte, a different key fails with WrongKey(key, the key found, line), and the right key not directly followed by ':' fails as consume(':') does; on success only blanks come between the ':' and a token whose Integer.parseInt value is the result, and the reader stops at the first byte after the token that cannot continue a number |
| Parser.ConsumeFloatProperty | src/file/Parser.java:292-297 | the text `"key":` sits at the first non-blank byte, a different key fails with WrongKey(key, the key found, line), and the right key not directly followed by ':' fails as consume(':') does; on success only blanks come between the ':' and a decimal token whose value is the result, and the token is followed directly by the 'f' the reader stops after |
| Parser.ConsumeDoubleProperty | src/file/Parser.java:305-310 | the text `"key":` sits at the first non-blank byte, a different key fails with WrongKey(key, the key found, line), and the right key not directly followed by ':' fails as consume(':') does; on success only blanks come between the ':' and a decimal token whose value is the result, and the reader stops at the first byte after the token that cannot continue a number |
| Parser.ConsumeBooleanProperty | src/file/Parser.java:318-323 | the text `"key":` sits at the first non-blank byte, a different key fails with WrongKey(key, the key found, line), and the right key not directly followed by ':' fails as consume(':') does; on success only blanks come between the ':' and the word true or false, whichever the value is, and the reader stops after it |
| Parser.ConsumeEndObjectProperty | src/file/Parser.java:328-330 | the reader stops just after the first '}' past the whitespace; any other byte fails |
| Parser.ConsumeBeginObjectProperty | src/file/Parser.java:338-345 | the reader ends just after a '{', with the quoted key at the first non-blank character; a different key fails with WrongKey(key, found, line), and a key not followed, after blanks, by ':' fails as consume(':') does |
| Parser.ComponentHead | src/file/Parser.java:240-245 | reading a component title yields a name without quotes and ends just after a '{'; a title that is not a string fails with the string reader's error |
| Parser.ComponentHeadAgrees | src/file/Parser.java:240-245 | reading a component title succeeds where the object opening succeeds for that key, gives the key, and stops at the same place |
| Grammar.StringRead | src/file/Parser.java:266-271 | a string property written by addStringProperty, with a key and a value free of quotes, reads back as the same string, and the reader stops at its ending |
| Grammar.QuoteCutsValue | src/file/Serialize.java:27-29 | addStringProperty writes a value without escaping; a value holding a quote never reads back, and the text written for a"b reads back as a, stopping at the inner quote |
| Grammar.IntRead | src/file/Parser.java:279-284 | an int property written by addIntProperty reads back as the same int, and the reader stops at its ending |
| Grammar.FloatRead | src/file/Parser.java:292-297 | a float property written by addFloatProperty reads back as the same value, and the reader stops at its ending |
| Grammar.BoolRead | src/file/Parser.java:318-323 | a boolean property written by addBooleanProperty reads back as the same value, and the reader stops at its ending |
| Grammar.BeginRead | src/file/Parser.java:338-345 | the text of beginObjectProperty is consumed by consumeBeginObjectProperty with the same key, up to the newline |
| Grammar.EndRead | src/file/Parser.java:328-330 | the text of closeObjectProperty is consumed by consumeEndObjectProperty, which stops right after it |
| Grammar.CommaRead | src/file/Parser.java:110-117 | the ",\n" written between properties gives up its comma to consume(',') |
| Grammar.SkipOver | src/file/Parser.java:78-83 | skipWhitespace passes exactly over written whitespace that comes before a byte which is not whitespace |
| Vectors.Serialize | src/util/Vector2.java:51-58 | the vector text is the x and y float properties and ends with a newline |
| Vectors.Deserialize | src/util/Vector2.java:65-71 | the reader fails as its x property fails, and otherwise only moves forward |
| Vectors.DeserializeRead | src/util/Vector2.java:65-71 | a written vector reads back as itself, and the reader stops just before its last newline |
| Transforms.FromPosition | src/dataStructure/Transform.java:36-40 | a new transform has the given position, unit scale and no rotation |
| Transforms.Copy | src/dataStructure/Transform.java:47-52 | the copy has the same position, scale and rotation |
| Transforms.Serialize | src/dataStructure/Transform.java:71-90 | the transform block is non-empty and ends with '}' |
| Transforms.Deserialize | src/dataStructure/Transform.java:97-117 | the reader fails as the "Transform" opening fails, and otherwise moves forward |
| Transforms.DeserializeRead | src/dataStructure/Transform.java:97-117 | a written transform reads back as itself, and the reader stops right after the block |
| Transforms.BlockRead | src/dataStructure/Transform.java:97-117 | a written vector block, under any key free of quotes, reads back as its vector, and the reader stops right after the block |
| Bounds.NewBoxBounds | src/Component/BoxBounds.java:23-29 | a new box has the given width and height, and half-sizes that add up to them |
| Bounds.CenterIsMidpoint | src/Component/BoxBounds.java:34-37 | the computed center lies halfway across the box on both axes |
| Bounds.CollisionIsOverlap | src/Component/BoxBounds.java:55-69 | the center-distance test is the same as the two boxes' x intervals and y intervals both meeting |
| Bounds.CollisionSymmetric | src/Component/BoxBounds.java:55-69 | the collision test does not depend on the order of the two boxes |
| Bounds.CheckCollision | src/Component/Bounds.java:40-45 | bounds collide only when both are boxes, and then exactly when the box test says so |
| Bounds.Resolve | src/Component/BoxBounds.java:75-108 | the player lands exactly when the vertical overlap is the smaller one and the obstacle's center is below, or when the side overlap is the smaller one with dx < 0 and dy ≤ 0.3; a landing puts the player's bottom on the obstacle's top |
| Bounds.LandingIsStable | src/Component/BoxBounds.java:75-108 | after a landing the boxes still touch, and resolving again lands at the same height |
| Bounds.ResolveBounds | src/Component/Bounds.java:52-57 | only box bounds resolve a collision, and they do it as the box resolution does |
| Bounds.Copy | src/Component/BoxBounds.java:111-113 | the copy is a fresh box of the same width and height |
| Bounds.CopyOfConstructed | src/Component/BoxBounds.java:111-113 | copying a constructed box gives an equal box |
| Bounds.Serialize | src/Component/BoxBounds.java:126-135 | the box text is non-empty and ends with '}' |
| Bounds.Deserialize | src/Component/BoxBounds.java:141-148 | a box read back is a proportioned box, and an unreadable Width is the error |
| Bounds.DeserializeRead | src/Component/BoxBounds.java:141-148 | a written box reads back as a new box with the same width and height |
| Sprites.FromImage | src/Component/Sprite.java:71-76 | a whole-image sprite takes its size from the image and has row, column and index 0 |
| Sprites.FromTile | src/Component/Sprite.java:87-96 | a tile sprite takes its size from its image and keeps the row, column and index it was given |
| Sprites.Copy | src/Component/Sprite.java:116-121 | the copy keeps the image, the path and the subsprite flag, and a tile also keeps its row, column and index |
| Sprites.CopyFixesCanonical | src/Component/Sprite.java:116-121 | copying leaves a sprite unchanged exactly when its size is its image's size |
| Sprites.CopyIdempotent | src/Component/Sprite.java:116-121 | copying a copy changes nothing |
| Sprites.SerializeOrder | src/Component/Sprite.java:130-149 | the sprite text holds isSubsprite and FilePath, and for a tile then row, column and index, in that order |
| Spritesheets.Tile | src/Component/Spritesheet.java:36-64 | tile k sits at row k / columns and column k % columns, cut from the sheet at (column·(w+spacing), row·(h+spacing)) |
| Spritesheets.Tiles | src/Component/Spritesheet.java:36-64 | a sheet of size n has n tiles, and tile k is Tile(k) |
| Spritesheets.FirstMisfit | src/Component/Spritesheet.java:47-60 | the tile the constructor's getSubimage first throws on: every earlier tile's region fits the image, and this one's does not |
| Spritesheets.NewSpritesheet | src/Component/Spritesheet.java:36-64 | the sheet is built exactly when every tile's region has a positive size and lies inside the parent image; it then keeps its tile size and spacing and its sprites are the tiles of its image; otherwise it fails with SubimageOutside naming the first tile that does not fit |
| Spritesheets.Layout | src/Component/Spritesheet.java:36-64 | the constructor's row and column loop, with getSubimage's bounds test before each tile, gives the same sheet or the same failure as NewSpritesheet |
| Spritesheets.TilesAreSubsprites | src/Component/Spritesheet.java:36-64 | every tile is a subsprite of the sheet's own image, with the tile's width and height |
| Spritesheets.GetSprite | src/Component/Spritesheet.java:72-74 | getSprite(i) returns the i-th tile and fails exactly when i is out of range |
| SpriteReader.Deserialize | src/Component/Sprite.java:156-183 | the reader yields a sprite whose size is its image's size, and an unreadable head is the error |
| SpriteReader.ReadWhole | src/Component/Sprite.java:156-183 | a whole-image sprite whose path is not in the pool fails as a missing sprite |
| SpriteReader.Reload | src/Component/Sprite.java:156-183 | reloading a tile fails as a missing sheet when its sheet is not in the pool, and a whole sprite fails as a missing sprite when it is not cached; a reloaded sprite has its image's size |
| SpriteReader.RowColumnDiscarded | src/Component/Sprite.java:156-183 | the row and column written for a tile play no part in how it is read back |
| SpriteReader.TileFromSheet | src/Component/Sprite.java:156-183 | a tile reloads only when its index is within its sheet, and then takes the row and column of the sheet's tile at that index |
| SpriteReader.ReloadExact | src/Component/Sprite.java:156-183 | a sprite that is what the pool holds for its path and index reloads as itself |
| SpriteReader.DeserializeRead | src/Component/Sprite.java:156-183 | a written sprite reads back as its reload from the pool, or fails as the reload fails, and the reader stops right after the block |
| Assets.AbsolutePath | src/dataStructure/AssetPool.java:25-28 | keys are absolute paths, and an absolute path is its own key |
| Assets.AbsolutePathIdempotent | src/dataStructure/AssetPool.java:25-28 | making a path absolute twice is the same as making it absolute once |
| Assets.EmptyPool | src/dataStructure/AssetPool.java:16-17 | the pool starts with no sprites and no sheets |
| Assets.SpellingsAgree | src/dataStructure/AssetPool.java:25-39 | hasSprite and hasSpritesheet answer the same for a path and for its absolute form |
| Assets.LoadSprite | src/Component/Sprite.java:42-63 | loading a sprite fails for a path already in the pool and for a file that cannot be read; otherwise the sprite is the whole image |
| Assets.AddSprite | src/dataStructure/AssetPool.java:81-89 | adding a sprite succeeds exactly when its path is new; it caches the sprite and keeps every other entry |
| Assets.GetSprite | src/dataStructure/AssetPool.java:47-56 | a cached sprite is returned and nothing changes; otherwise the call succeeds exactly when the loader finds the file, the sprite is the one built from the loaded image, and the pool's sprite map gains exactly that entry under the absolute path; the directory and the sheets stay as they were |
| Assets.GetSpriteCaches | src/dataStructure/AssetPool.java:47-56 | after one successful getSprite, the same or the absolute path returns the cached sprite whatever the loader does |
| Assets.GetSpritesheet | src/dataStructure/AssetPool.java:64-73 | getSpritesheet succeeds exactly when the sheet is present, and then returns it |
| Assets.AddSpritesheet | src/dataStructure/AssetPool.java:101-107 | a sheet already present leaves the pool as it is, whatever the tile parameters; a new one is cut from the sprite obtained for its path, and the call succeeds exactly when that sprite is found and every tile fits its image; a missing sprite passes its error on, a tile outside the image fails with SubimageOutside at the first such tile |
| Assets.AddSpritesheetIdempotent | src/dataStructure/AssetPool.java:101-107 | adding the same path again changes nothing, whatever the tile parameters of either call are once the path is registered |
| Components.ProvidesExactly | src/engine/GameObject.java:56-68 | only a box answers to two classes, Bounds and BoxBounds |
| Components.NewPlayer | src/Component/Player.java:42-70 | a new player component is on the ground and has the player's width and height |
| Components.NewSnapToGrid | src/Component/SnapToGrid.java:44-47 | a new snap-to-grid component has its grid size and no debounce time left |
| Components.Copy | src/engine/GameObject.java:109-118 | only sprites and boxes copy, and the other components copy to null; a sprite keeps its image and file, and a box keeps its width and height |
| Components.CopyIdempotent | src/Component/Sprite.java:116-121 | copying the copy of a component gives that copy again |
| Components.Serialize | src/Component/Player.java:146-148 | only sprites and boxes write text; the other components write "" |
| Components.ParseComponent | src/file/Parser.java:240-258 | the reader yields a sprite or a box, and any other title is an UnknownComponent error |
| Components.KindOf | src/file/Parser.java:247-255 | the title "Sprite" selects the sprite reader, "BoxBounds" the box reader, and anything else neither |
| Components.Reread | src/file/Parser.java:240-258 | a written box reads back as a fresh box of its size, and a written sprite reads back as a sprite |
| Components.ParseRead | src/file/Parser.java:240-258 | a written component reads back as its reread value, or fails as the reread fails, and the reader stops right after it |
| GameObjects.New | src/engine/GameObject.java:42-47 | a new object has the given name, transform and z-index, no components, is not UI and is serializable |
| GameObjects.FirstMatch | src/engine/GameObject.java:56-68 | the lookup returns the first component of the class |
| GameObjects.GetComponent | src/engine/GameObject.java:56-68 | getComponent is null exactly when no component is of the class, and otherwise the first one that is |
| GameObjects.RemoveComponent | src/engine/GameObject.java:76-83 | removeComponent drops the first component of the class and nothing else |
| GameObjects.RemoveKeepsOthers | src/engine/GameObject.java:76-83 | the components left are the old ones minus exactly the one removed |
| GameObjects.AddComponent | src/engine/GameObject.java:99-102 | addComponent appends the component and leaves the rest of the object as it was |
| GameObjects.GetAfterAdd | src/engine/GameObject.java:99-102 | after an add, the lookup for a class is the old answer, or the new component when it is the first of its class |
| GameObjects.FirstMatchAppend | src/engine/GameObject.java:56-68 | appending a component moves the first match only when there was none |
| GameObjects.Persistents | src/engine/GameObject.java:109-118 | the components kept by copy and serialize are all sprites or boxes |
| GameObjects.PersistentsExactly | src/engine/GameObject.java:109-118 | the components kept are exactly the sprites and boxes of the list |
| GameObjects.CopyAll | src/engine/GameObject.java:109-118 | the copy loop keeps one copy for each sprite or box, in order |
| GameObjects.Copy | src/engine/GameObject.java:109-118 | the copy is named "Generated", has a copy of the transform, the same z-index and copies of the sprites and boxes |
| GameObjects.CopyTwice | src/engine/GameObject.java:109-118 | copying a copy gives the same object again |
| GameObjects.Serialize | src/engine/GameObject.java:156-201 | an object writes "" exactly when it is not serializable; otherwise its text ends with '}', and at no indentation it starts with a quote |
| GameObjects.Deserialize | src/engine/GameObject.java:208-236 | the reader fails as the head fails, and otherwise moves forward |
| GameObjects.DeserializeShape | src/engine/GameObject.java:208-236 | an object read back has the head's name, transform and z-index, and only sprites and boxes |
| GameObjects.ReadBody | src/engine/GameObject.java:214-234 | the body reader fails at the end of input and otherwise moves forward |
| GameObjects.ComponentLoop | src/engine/GameObject.java:220-230 | the component loop only moves forward |
| GameObjects.LoopPersistent | src/engine/GameObject.java:220-230 | every component the loop reads is a sprite or a box |
| GameObjects.ListPersistent | src/engine/GameObject.java:216-232 | a component list read back is non-empty and holds only sprites and boxes |
| ObjectReading.RereadAll | src/engine/GameObject.java:220-230 | rereading a list of components gives as many as were written |
| ObjectReading.RereadAllPointwise | src/engine/GameObject.java:220-230 | the list rereads exactly when each component does, and then each result is that component's reread |
| ObjectReading.Reread | src/engine/GameObject.java:208-236 | an object read back keeps its name, transform and z-index, is serializable and not UI, and has one component per sprite or box written |
| ObjectReading.DeserializeRead | src/engine/GameObject.java:208-236 | a written object whose last component writes something reads back as its reread value, and the reader stops right after its text |
| ObjectReading.DeserializeFails | src/engine/GameObject.java:176-196 | a written object whose last component writes nothing leaves a dangling ",\n", and its reading fails |
| ObjectReading.EntriesText | src/engine/GameObject.java:176-196 | the writer's component loop is the list text of the sprites and boxes, with a dangling comma when the last component writes nothing |
| ObjectReading.ObjectText | src/engine/GameObject.java:156-201 | the object text is its opening, transform, Name, ZIndex and component block, in that order |
| ObjectReading.HeadRead | src/engine/GameObject.java:208-214 | a written head reads back as the object's transform, name and z-index |
| ObjectReading.ObjectHead | src/engine/GameObject.java:208-214 | reading a written object reaches its body with the head already read |
| ObjectReading.ListObjectRead | src/engine/GameObject.java:214-234 | an object with components whose last one writes something reads back as its reread value |
| ObjectReading.EmptyObjectRead | src/engine/GameObject.java:214-234 | an object without components reads back as itself, without components |
| LevelFiles.ParseGameObject | src/file/Parser.java:65-73 | parseGameObject returns null on an empty or finished buffer, and otherwise moves forward |
| LevelFiles.ParseGameObjectNone | src/file/Parser.java:65-73 | parseGameObject returns null exactly when only an optional comma and whitespace are left |
| LevelFiles.ReadObjectsPersistent | src/engine/LevelScene.java:169-177 | every object imported holds only sprites and boxes |
| LevelFiles.ImportLevel | src/engine/LevelScene.java:169-177 | an unreadable file is an error and a missing file changes nothing; a successful import appends the objects read and keeps everything else |
| LevelFiles.ImportAppends | src/engine/LevelScene.java:169-177 | the import succeeds exactly when reading the text does, and then appends exactly the objects read |
| LevelFiles.Piece | src/engine/LevelEditorScene.java:169-177 | the export writes nothing for an object that is not serializable |
| LevelFiles.Separator | src/engine/LevelEditorScene.java:173-175 | whatever the export writes between one object's text and the next is whitespace |
| LevelFiles.ExportNothing | src/engine/LevelEditorScene.java:169-177 | a list with no serializable object exports as empty text |
| LevelFiles.ExportStep | src/engine/LevelEditorScene.java:169-177 | the export writes the list object by object: each serializable object's text, then its separator |
| LevelFiles.ReadFirst | src/file/Parser.java:65-73 | over exported text, parseGameObject reads the first written object as it rereads, and stops before its separator |
| LevelFiles.ReadFirstFails | src/file/Parser.java:65-73 | over exported text whose first written object ends in a component that writes nothing, the import fails |
| LevelFiles.ReadText | src/file/Parser.java:65-73 | parseGameObject reads a written object whose last component writes something, whatever text follows it |
| LevelFiles.TextFails | src/file/Parser.java:65-73 | parseGameObject fails on a written object whose last component writes nothing |
| LevelFiles.ReadEnd | src/engine/LevelScene.java:169-177 | the import stops with nothing more when only whitespace is left |
| LevelFiles.ReadExported | src/engine/LevelScene.java:169-177 | reading an export from any object on gives the remaining serializable objects, each reread, in order |
| LevelFiles.ExportRoundTrip | src/engine/LevelEditorScene.java:157-189 | importing what export wrote gives back the serializable objects in list order, each as the reader rebuilds it, or the first reload failure |
| Physics.Limit | src/Component/RigidBody.java:46-49 | the vertical speed is capped at MAX_VELOCITY in magnitude, keeping its sign |
| Physics.LimitIsNearest | src/Component/RigidBody.java:46-49 | the cap changes an allowed speed not at all, and a larger one to the nearest allowed value |
| Physics.RigidBodyStep | src/Component/RigidBody.java:38-50 | the position moves by the old velocity times dt, the horizontal velocity is kept, and the vertical velocity stays within the cap |
| Physics.GravityPullsDown | src/Component/RigidBody.java:38-50 | gravity never lowers the vertical velocity, adds GRAVITY·dt below the cap, and keeps it at the cap once reached |
| Physics.Trunc | src/Component/Player.java:87 | the int cast rounds toward zero |
| Physics.Rem360 | src/Component/Player.java:87 | Java's % 360 keeps the sign of the angle and differs from it by a multiple of 360 |
| Physics.Settle | src/Component/Player.java:86-92 | on the ground a non-negative rotation settles to 0 or 180, 180 exactly when the truncated angle mod 360 is 180; a negative one stays as its truncated remainder |
| Physics.SettleIdempotent | src/Component/Player.java:86-92 | settling a settled rotation changes nothing |
| Physics.Rotate | src/Component/Player.java:84-92 | in the air the rotation grows by 12.5·dt; on the ground a non-negative one settles to 0 or 180 |
| Physics.GroundSnap | src/Component/Ground.java:29-35 | a player whose bottom is below the ground line is put on it; one above is left where it is |
| Physics.GroundSnapStable | src/Component/Ground.java:29-35 | snapping again after a snap changes nothing and does not land again |
| Rendering.Empty | src/engine/Renderer.java:28-31 | the renderer starts with no buckets |
| Rendering.Submit | src/engine/Renderer.java:38-42 | submit appends the object to its z-index bucket, creating the bucket when needed, and leaves every other bucket as it is |
| Rendering.SubmitAllBuckets | src/engine/Renderer.java:38-42 | after several submissions each bucket is its old contents followed by the objects submitted at its z-index, in order |
| Rendering.DrawOrderHas | src/engine/Renderer.java:58-90 | every object submitted is drawn |
| Rendering.Render | src/engine/Renderer.java:49-92 | render draws the buckets in increasing z-index order, each in submission order, and draws nothing when nothing was submitted |
| Rendering.Extremes | src/engine/Renderer.java:51-56 | the key scan finds the least and the greatest z-index, and MAX_VALUE and MIN_VALUE when there are none |
| Rendering.Sweep | src/engine/Renderer.java:58-90 | the sweep from the lowest to the highest z-index, skipping missing ones, draws the buckets in increasing z order |
| Rendering.DrawOrderSplit | src/engine/Renderer.java:58-90 | the draw order is that of the buckets below any z followed by that of the buckets at or above it |
| Rendering.View | src/engine/Renderer.java:67-84 | a UI object is drawn where it is; any other is drawn offset by the camera, with its scale and rotation unchanged |
| Rendering.RestoreIsExact | src/engine/Renderer.java:71-74 | the transform saved before drawing and put back afterwards equals the original |
| Scenes.NewScene | src/engine/Scene.java:48-53 | a scene starts with its name, the camera at the origin, no objects and an empty renderer |
| Scenes.AddGameObject | src/engine/Scene.java:66-72 | addGameObject appends the object and submits it at its z-index, and leaves everything else as it was |
| Scenes.AddAllAppends | src/engine/LevelScene.java:169-177 | adding a list appends it and submits each object in order, and leaves everything else as it was |
| Scenes.AddKeepsCoherent | src/engine/Scene.java:66-72 | after an add every object the renderer holds is still in the scene |
| Scenes.AddAllKeepsCoherent | src/engine/LevelScene.java:169-177 | after adding a list every object the renderer holds is still in the scene |
| Scenes.Frame | src/engine/Renderer.java:58-90 | when every handle resolves, the frame pairs each handle, in order, with its object's transform under the camera view |
| Scenes.Draw | src/engine/LevelScene.java:185-192 | drawing a scene visits the renderer's draw order and shows each object at its camera view |
| Scenes.DrawsResolve | src/engine/Renderer.java:58-90 | every object the renderer draws is one the scene holds |
| Updates.SetComponent | src/engine/GameObject.java:125-129 | a component update replaces only its own component |
| Updates.ReplaceKeepsLookup | src/engine/GameObject.java:56-68 | replacing a component by one of the same kind leaves the lookups for other classes unchanged |
| Updates.ReplaceFound | src/engine/GameObject.java:56-68 | after the replacement, the lookup for its class finds the new component |
| Updates.SetVelocityY | src/Component/Player.java:99-101 | setting the vertical velocity needs a rigid body and changes only its vertical velocity |
| Updates.SetOnGround | src/engine/LevelScene.java:150 | setting onGround needs a player component and changes only that flag |
| Updates.Land | src/Component/BoxBounds.java:91-94 | a landing puts the player at the given height, zeroes its vertical velocity and marks it on the ground; it fails without a rigid body or a player component, naming the rigid body first as BoxBounds sets its speed first |
| Updates.GroundLand | src/Component/Ground.java:31-34 | the ground's landing has the same effect as Land, but sets the player flag before the speed, so a missing player component is named first |
| Updates.Die | src/Component/Player.java:106-110 | die moves the player to (0, 30) and the camera's x to 0, and leaves the objects as they are |
| Updates.RigidBodyUpdate | src/Component/RigidBody.java:38-50 | the rigid body update moves its object and updates its own velocity |
| Updates.PlayerUpdate | src/Component/Player.java:78-94 | the player update fails exactly when it jumps without a rigid body |
| Updates.PlayerSteps | src/Component/Player.java:78-94 | a jump sets the rigid body's vertical velocity to JUMP_FORCE and leaves the ground; the rotation spins in the air or settles on the ground; without a jump the other components are untouched |
| Updates.JumpForce | src/Component/Player.java:99-101 | addJumpForce sets the rigid body's vertical velocity to JUMP_FORCE and fails without a rigid body |
| Updates.GroundUpdate | src/Component/Ground.java:25-41 | the ground moves to 10 left of the camera and keeps the camera, the renderer and the object count; in the editor it never fails |
| Updates.HoldUp | src/Component/Ground.java:29-35 | a player below the ground line is put on it and marked on the ground; one above is left as it is |
| Updates.Cell | src/Component/SnapToGrid.java:54-55 | the cell is the floor of the mouse position in the world divided by the grid size |
| Updates.SnapUpdate | src/Component/SnapToGrid.java:50-67 | the snap-to-grid update keeps its owner and the owner's component count, never shrinks the object list, and leaves the camera as it is |
| Updates.Place | src/Component/SnapToGrid.java:62-65 | placing appends a copy of the cursor at the cell corner |
| Updates.PlacedTile | src/Component/SnapToGrid.java:62-65 | a placed tile is a serializable "Generated" copy at the corner, holding only sprites and boxes |
| Updates.SnapPlaces | src/Component/SnapToGrid.java:50-66 | with a sprite and a left click above the buttons once the debounce has run out, the cursor snaps to the cell, the debounce restarts, and a copy is placed at the cell corner |
| Updates.SnapWaits | src/Component/SnapToGrid.java:50-67 | otherwise the debounce counts down, a cursor with a sprite still snaps to the cell, and nothing is placed |
| Updates.UpdateComponent | src/engine/GameObject.java:125-129 | a component update keeps its object, its component count, the camera, the player box and the editor flag |
| Updates.UpdateFrom | src/engine/GameObject.java:125-129 | updating the components from k on keeps the same frame facts |
| Updates.UpdateObject | src/engine/GameObject.java:125-129 | updating an object runs its components in order and keeps the same frame facts |
| Updates.InertUpdate | src/Component/BoxBounds.java:45-47 | an object with only sprites and boxes is not changed by its update |
| LevelScenes.Follow | src/engine/LevelScene.java:138-146 | the camera's x only grows, just enough to keep the player within 300 of it; its y follows the player at 325 the same way but never exceeds 150 |
| LevelScenes.FollowSettles | src/engine/LevelScene.java:138-146 | following again from the new camera changes nothing |
| LevelScenes.Collide | src/engine/LevelScene.java:152-159 | no touch changes nothing; a touch lands the player on the obstacle's top or sends it to the respawn point with the camera's x at 0, and fails without a player box |
| LevelScenes.CollideFrom | src/engine/LevelScene.java:150-160 | an object update that adds to the list makes the loop fail with ConcurrentModification; a loop that succeeds keeps the object count, the player, the player box, the editor flag and the camera's y |
| LevelScenes.PlayerStep | src/engine/LevelScene.java:138-148 | the camera follows, then the player updates and leaves the frame not on the ground |
| LevelScenes.LevelUpdate | src/engine/LevelScene.java:136-162 | a level frame succeeds only after a successful player step, keeps that step's object count, and leaves the camera's y at most 150 |
| LevelScenes.QuietPass | src/engine/LevelScene.java:150-160 | objects made only of sprites and boxes that do not touch the player leave the loop without effect |
| LevelScenes.QuietFrame | src/engine/LevelScene.java:136-162 | a frame among such objects is just the player step |
| LevelScenes.InitAssetPool | src/engine/LevelScene.java:123-128 | the three player layers and the ground sprites are loaded as sheets |
| LevelScenes.GroundSheetBounds | src/engine/LevelScene.java:127 | the ground sheet (6 columns, 12 tiles of 42 by 42, spacing 2) is added exactly when its image is at least 262 by 86; on an image narrower or lower than one tile it fails at tile 0 |
| LevelScenes.LevelPlayer | src/engine/LevelScene.java:46-61 | the level's player sits at (500, 350) on z-index 0 with four components: a new player component, a rigid body moving right at PLAYER_SPEED, and 42 by 42 boxes, the last one at index 3 |
| LevelScenes.LevelGround | src/engine/LevelScene.java:41-71 | the ground sits at GROUND_Y on z-index 1 with just a ground component, so it neither collides nor plays |
| LevelScenes.Staged | src/engine/LevelScene.java:41-71 | before the import the level holds the player in the renderer and the ground in the list |
| LevelScenes.InitLevel | src/engine/LevelScene.java:41-71 | init loads the sheets, builds the player and ground, then imports; an unreadable file is an error |
| LevelScenes.LevelStart | src/engine/LevelScene.java:41-71 | after init the list is the ground followed by the objects read, and the player is drawn first at z-index 0 |
| LevelScenes.StagedSound | src/engine/LevelScene.java:41-71 | adding objects made only of sprites and boxes keeps the renderer coherent, and none of them is a player |
| LevelScenes.LevelStartSound | src/engine/LevelScene.java:41-71 | after init every drawn object is in the scene, and no object in the list is a player |
| Editors.EditorAssetPool | src/engine/LevelEditorScene.java:96-102 | the editor loads the level's four sheets and the button sheet |
| Editors.EditorCursor | src/engine/LevelEditorScene.java:66-67 | the cursor is "Mouse Cursor" at the origin, on z-index 10, with a 42 by 42 snap-to-grid |
| Editors.EditorPlayer | src/engine/LevelEditorScene.java:70-80 | the editor's player has only a player component and is not serializable |
| Editors.EditorGround | src/engine/LevelEditorScene.java:83-87 | the editor's ground is the level's ground, not serializable |
| Editors.InitEditor | src/engine/LevelEditorScene.java:57-91 | the editor starts with the player and the ground in its list, the cursor apart from it, and no level player |
| Editors.KeyCommand | src/engine/LevelEditorScene.java:128-134 | S saves; L loads unless S is held; E leaves unless S or L is held |
| Editors.Clamp | src/engine/LevelEditorScene.java:112-114 | the camera's y is capped at 150 and its x is left alone |
| Editors.UpdateEach | src/engine/LevelEditorScene.java:117-119 | an object update that adds to the list makes the loop fail with ConcurrentModification; a loop that succeeds keeps the object count, the camera, the editor flag and the cursor |
| Editors.Pick | src/ui/MenuItem.java:80-98 | picking a menu item gives the cursor the item's copied components followed by the old cursor's snap-to-grid, and changes nothing else; it fails when the cursor has no snap-to-grid |
| Editors.Widgets | src/engine/LevelEditorScene.java:122-125 | the camera moves by minus the drag, and a pick replaces the cursor |
| Editors.EditorUpdate | src/engine/LevelEditorScene.java:110-135 | an editor frame returns the key command, leaves the camera clamped and then moved by minus the drag, and never shrinks the object list; a load from an unreadable file is an error |
| Editors.ArchiveOnlyForLoad | src/engine/LevelEditorScene.java:128-134 | an editor frame whose keys do not ask for L gives the same result whatever the archive holds |
| Editors.LoadAppendsFile | src/engine/LevelEditorScene.java:128-134 | a frame whose keys ask for L is the same frame with no file found, plus the objects read from the file appended after all the others; it succeeds exactly when the file reads, and the camera, cursor and player are those of the frame without the file |
| Editors.FixturesPrintable | src/engine/LevelEditorScene.java:87-88 | the editor's player and ground can be written |
| Editors.FixturesSaveNothing | src/engine/LevelEditorScene.java:87-88 | the editor's player and ground export as nothing |
| Editors.InitEditorSavesNothing | src/engine/LevelEditorScene.java:57-91 | saving right after init writes an empty level |
| Editors.FixturesSkipped | src/engine/LevelEditorScene.java:169-177 | the two fixtures at the head of the list are never among the objects saved |
| Editors.SaveLoad | src/engine/LevelEditorScene.java:157-189 | loading what the editor saved gives the placed objects after the fixtures, each reread, in order |
| Editors.SpaceThrows | src/Component/Player.java:99-101 | an editor frame with space pressed fails with a null RigidBody, because the editor's player is on the ground and has no rigid body |

## Left out

- Floating point. Geometry is `real`. The float printer is modelled for whole values below 10^7 in magnitude, which print as "<int>.0". The reader takes any decimal token at its exact value, with no rounding to float or double.
- Character encoding. Text is `seq<char>`, with one char per byte. UTF-8 and `String.getBytes` are not modelled.
- ZIP archives and the file system. The level file is an `Archive` value: `Contents`, `Missing` or `Unreadable`. The directory creation, the stream plumbing and the `printStackTrace`/`exit(0)` path of export are left out.
- Image loading is a `Loader` parameter (a path maps to an optional image). Path normalisation beyond "cwd + / + relative path" is not modelled.
- The window, the clock and the keyboard and mouse listeners are an `Input` value and parameters. `Window.changeScene` and `Main` are not part of this model.
- The editor's camera drag and picked menu item are parameters of `EditorUpdate`. The hit test of `MenuItem`, `MainContainer`, `Grid` and all drawing bodies (`draw`, recolouring) are not part of this model.
- Editors.EditorUpdate: the save and leave commands are returned to the caller rather than carried out.
- `initBackgrounds` and `ParallaxBackground`: the fourteen background objects are not part of this model.
- The player's sprite layers are not modelled: the init code reads `getSpritesheet(...).sprites.get(0)`, and the player component is built without them.
- Integer overflow of Java's `int` in arithmetic is not modelled. Parsed ints are range-checked as `Integer.parseInt` does.
- Rendering.Render: when the z-index keys include MAX_VALUE, the Java sweep counter wraps around. That case is not modelled.
- Spritesheets.NewSpritesheet requires at least one column when the sheet has tiles, because with no column and a positive size the Java constructor never terminates: its inner loop adds no tile, so its outer loop runs forever. Assets.AddSpritesheet asks this only for a path that is not yet registered, since a registered path returns before the constructor runs.
- Spritesheets.Fits compares tile coordinates as unbounded integers. The `int` overflow of `i * (tileWidth + spacing)` and of getSubimage's own sums is not modelled.
- Components.NewSnapToGrid takes a positive grid size, and the float cast of the snapped corner is not modelled.
- Physics.Trunc does not model the saturation of Java's float-to-int cast for huge values.
- Component `start` is a no-op for the modelled components and is left out.
- The back-reference from a component to its game object is implicit: an update receives the owner.
- Serialization requires every float field to be printable (whole and below 10^7 in magnitude). LevelFiles.Export and Editors.SaveContent carry that as a precondition.
- LevelFiles.ExportRoundTrip and the `DeserializeRead` lemmas require object names and sprite file paths without a quote. The writer copies them between quotes unescaped, so such a text does not read back (Grammar.QuoteCutsValue).
- LevelFiles.ExportRoundTrip requires every serializable object to end in a component that writes something. The other case is proved from the point where that object's text begins (LevelFiles.ReadFirstFails), not for the whole exported text.
- Scenes.NewScene models `Scene(String)`. The Java code declares it as a plain `void` method that subclasses call, not a constructor.
- LevelScenes.LevelUpdate and LevelScenes.PlayerStep require the player and its box to exist. The Java scene sets both in `init` before any update.
- LevelScenes.CollideFrom: the Java for-each loop throws when the iterator's next() is called after the list grew. The model fails at the update that adds the object, which gives the same error on the same frame.
- Scenes.Draw requires that every handle the renderer holds resolves to an object. The Java renderer holds the objects themselves, so this is the model's stand-in.
- Concurrency: the game loop runs on one thread, so none is modelled.
