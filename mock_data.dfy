/**
 * The seed catalogue of eight books the in-memory store starts from, and the
 * two lookups that read the seed directly. The seed's timestamps are computed
 * from the clock when it is loaded, so the catalogue takes that instant as a
 * parameter.
 */
module MockData {
  import opened Wrappers
  import opened Sequences
  import opened Text
  import opened Types

  const HourMs: int := 1000 * 60 * 60
  const DayMs: int := 1000 * 60 * 60 * 24

  // The seed books' descriptions, in seed order.
  const Blurb1: string := "Between life and death there is a library, and within that library, the shelves go on forever. Every book provides a chance to try another life you could have lived."
  const Blurb2: string := "Ryland Grace is the sole survivor on a desperate, last-chance mission—and if he fails, humanity and the earth Pitself will perish."
  const Blurb3: string := "A novel about Klara, an Artificial Friend with outstanding observational qualities, who, from her place in the store, watches carefully the behavior of those who come in to browse, and of those who pass on the street outside."
  const Blurb4: string := "The Vignes twin sisters will always be identical. But after growing up together in a small, southern black community and running away at age sixteen, it's not justthe shape of their daily lives that is different as adults, it's everything: their families, their communities, their racial identities."
  const Blurb5: string := "Set on the desert planet Arrakis, Dune is the story of the boy Paul Atreides, heir to a noble family tasked with ruling an inhospitable world where the only thing of value is the “spice” melange, a drug capable of extending life and enhancing consciousness."
  const Blurb6: string := "A tale of gods, kings, immortal fame, and the human heart, The Song of Achilles is a dazzling literary feat that brilliantly reimagines Homer’s enduring masterwork, The Iliad."
  const Blurb7: string := "An easy and proven way to build good habits and break bad ones. Tiny changes, remarkable results."
  const Blurb8: string := "A stunning debut novel, Where the Crawdads Sing is at once an exquisite ode to the natural world, a heartbreaking coming-of-age story, and a surprising tale of possible murder."

  /** Every seed book carries both timestamps, was created no later than it was updated, and before load. */
  function MockBooks(loadTime: int): (r: seq<Book>)
    ensures |r| == 8
    ensures forall i :: 0 <= i < |r| ==>
      r[i].createdAt.Some? && r[i].updatedAt.Some? && r[i].createdAt.value <= r[i].updatedAt.value < loadTime
  {
    [
      Book("1", "The Midnight Library", "Matt Haig",
        Blurb1,
        "https://picsum.photos/seed/midnightlibrary/300/450", 1599,
        Some(loadTime - 5 * DayMs), Some(loadTime - 5 * DayMs)),
      Book("2", "Project Hail Mary", "Andy Weir",
        Blurb2,
        "https://picsum.photos/seed/projecthailmary/300/450", 1850,
        Some(loadTime - 10 * DayMs), Some(loadTime - 3 * DayMs)),
      Book("3", "Klara and the Sun", "Kazuo Ishiguro",
        Blurb3,
        "https://picsum.photos/seed/klaraandthesun/300/450", 1675,
        Some(loadTime - 2 * DayMs), Some(loadTime - 2 * DayMs)),
      Book("4", "The Vanishing Half", "Brit Bennett",
        Blurb4,
        "https://picsum.photos/seed/vanishinghalf/300/450", 1499,
        Some(loadTime - 15 * DayMs), Some(loadTime - 1 * DayMs)),
      Book("5", "Dune", "Frank Herbert",
        Blurb5,
        "https://picsum.photos/seed/dune/300/450", 1299,
        Some(loadTime - 30 * DayMs), Some(loadTime - 30 * DayMs)),
      Book("6", "The Song of Achilles", "Madeline Miller",
        Blurb6,
        "https://picsum.photos/seed/songofachilles/300/450", 1350,
        Some(loadTime - 7 * DayMs), Some(loadTime - 7 * DayMs)),
      Book("7", "Atomic Habits", "James Clear",
        Blurb7,
        "https://picsum.photos/seed/atomichabits/300/450", 1999,
        Some(loadTime - 20 * DayMs), Some(loadTime - 2 * HourMs)),
      Book("8", "Where the Crawdads Sing", "Delia Owens",
        Blurb8,
        "https://picsum.photos/seed/crawdadssing/300/450", 1180,
        Some(loadTime - 4 * DayMs), Some(loadTime - 4 * DayMs))
    ]
  }

  /** The seed holds eight books whose ids are the numerals 1 to 8, in order. */
  lemma MockBookIds(loadTime: int)
    ensures |MockBooks(loadTime)| == 8
    ensures forall i :: 0 <= i < 8 ==> MockBooks(loadTime)[i].id == NatToString(i + 1)
  {
  }

  /** No two seed books share an id. */
  lemma MockBookIdsDistinct(loadTime: int)
    ensures DistinctBy(BookId, MockBooks(loadTime))
  {
    MockBookIds(loadTime);
    forall i, j | 0 <= i < j < 8 ensures MockBooks(loadTime)[i].id != MockBooks(loadTime)[j].id {
    }
  }

  /** Every seed book has a positive price. */
  lemma MockBookPricesPositive(loadTime: int)
    ensures forall b :: b in MockBooks(loadTime) ==> b.price > 0
  {
  }

  /** `getBookById_Legacy`: the first seed book with that id, or none. */
  function GetBookByIdLegacy(loadTime: int, id: string): (r: Option<Book>)
    ensures r.Some? ==> r.value in MockBooks(loadTime) && r.value.id == id
    ensures r.None? <==> forall b :: b in MockBooks(loadTime) ==> b.id != id
  {
    Find(BookHasId(id), MockBooks(loadTime))
  }

  /** `getAllBookTitles_Legacy`: the seed titles, in seed order. */
  function GetAllBookTitlesLegacy(loadTime: int): (r: seq<string>)
    ensures |r| == |MockBooks(loadTime)|
    ensures forall i :: 0 <= i < |r| ==> r[i] == MockBooks(loadTime)[i].title
  {
    Titles(MockBooks(loadTime))
  }
}
