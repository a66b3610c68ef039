/**
 * The multer configuration of src/express/middlewares/upload.js: the name a
 * stored upload gets and the mimetype filter. The random id (`nanoid(10)`) and
 * the list of accepted mimetypes are parameters.
 */
module Upload {
  import opened Text

  /** `file.originalname.split('.').pop()`. */
  function Extension(originalname: string): (ext: string)
    ensures '.' !in ext
    ensures |ext| <= |originalname| && originalname[|originalname| - |ext|..] == ext
    ensures |ext| < |originalname| ==> originalname[|originalname| - |ext| - 1] == '.'
    ensures '.' !in originalname ==> ext == originalname
  {
    LastPartIsSuffix(originalname, '.');
    SplitSingle(originalname, '.');
    LastPart(Split(originalname, '.'))
  }

  /** `${uniqueName}.${extension}`. */
  function StoredName(uniqueName: string, originalname: string): string
  {
    uniqueName + "." + Extension(originalname)
  }

  /**
   * A stored name splits back into the random id and the extension (the id's
   * alphabet has no '.'), so storing a file keeps its extension.
   */
  lemma StoredNameParts(uniqueName: string, originalname: string)
    requires '.' !in uniqueName
    ensures Split(StoredName(uniqueName, originalname), '.') == [uniqueName, Extension(originalname)]
    ensures Extension(StoredName(uniqueName, originalname)) == Extension(originalname)
  {
    var parts := [uniqueName, Extension(originalname)];
    assert Join(parts, ".") == uniqueName + "." + Extension(originalname);
    SplitJoin(parts, '.');
  }

  /** `fileFilter`: `FILE_TYPES.includes(file.mimetype)`; a file is stored exactly when its mimetype is listed. */
  function Accepts(fileTypes: seq<string>, mimetype: string): (accepted: bool)
    ensures accepted <==> exists i :: 0 <= i < |fileTypes| && fileTypes[i] == mimetype
  {
    mimetype in fileTypes
  }
}
