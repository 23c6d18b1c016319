/** The part of the file system the icon caches touch: regular files by
  * path. Directories are implicit in the paths (os.MkdirAll is not
  * modelled), and `failing` names the paths whose opening or writing
  * fails for a reason other than their absence (permissions, I/O). */
module Files {

  /** What a file holds: text, or a PNG image of the given size. */
  datatype Content = Text(text: string) | Picture(width: int, height: int)

  class Disk {
    var files: map<string, Content>
    var failing: set<string>

    constructor (files: map<string, Content>, failing: set<string>)
      ensures this.files == files && this.failing == failing
    {
      this.files := files;
      this.failing := failing;
    }
  }
}
