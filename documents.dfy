/** The movie records every component works on, and the id-to-movie map
    each component builds from them. */
module Documents {
  import Sequences

  /** A movie as loaded from the data set: `{"id", "title", "description"}`. */
  datatype Document = Document(id: int, title: string, description: string)

  /** `f"{movie['title']} {movie['description']}"`, the text the keyword index tokenizes. */
  function IndexedText(d: Document): string
  {
    d.title + " " + d.description
  }

  /** The ids of `movies`, in order. */
  function Ids(movies: seq<Document>): (r: seq<int>)
    ensures |r| == |movies| && forall i :: 0 <= i < |movies| ==> r[i] == movies[i].id
  {
    if movies == [] then [] else Ids(movies[..|movies| - 1]) + [movies[|movies| - 1].id]
  }

  /** `for doc in documents: document_map[doc["id"]] = doc`, starting from `docmap`. */
  function Register(docmap: map<int, Document>, movies: seq<Document>): map<int, Document>
  {
    if movies == [] then docmap
    else
      var m := movies[|movies| - 1];
      Register(docmap, movies[..|movies| - 1])[m.id := m]
  }

  /** An id of `movies` maps to the last movie with that id; other ids keep
      what `docmap` had. */
  lemma {:induction false} RegisterLast(docmap: map<int, Document>, movies: seq<Document>, id: int)
    ensures var r := Register(docmap, movies);
      id in Ids(movies) ==> id in r && r[id] == movies[Sequences.LastIndexOf(Ids(movies), id)]
    ensures var r := Register(docmap, movies);
      id !in Ids(movies) ==> (id in r <==> id in docmap) && (id in docmap ==> r[id] == docmap[id])
  {
    if movies != [] {
      var init := movies[..|movies| - 1];
      var last := movies[|movies| - 1];
      RegisterLast(docmap, init, id);
      assert Ids(movies) == Ids(init) + [last.id];
      if id in Ids(movies) && id != last.id {
        Sequences.LastIndexOfSnoc(Ids(init), last.id, id);
      }
    }
  }

  /** Every registered movie is stored under its own id. */
  lemma {:induction false} RegisterById(docmap: map<int, Document>, movies: seq<Document>)
    requires forall id :: id in docmap ==> docmap[id].id == id
    ensures forall id :: id in Register(docmap, movies) ==> Register(docmap, movies)[id].id == id
  {
    if movies != [] {
      RegisterById(docmap, movies[..|movies| - 1]);
    }
  }
}
