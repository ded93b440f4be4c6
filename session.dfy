/**
  The search component's state and event handlers. Each React state hook
  is a field; each handler is a method that changes exactly the fields it
  sets; the two effects are the methods FetchData (runs when the chosen
  file changes) and ConfigsChanged (runs when `configs` changes).
 */
module Session {
  import opened Wrappers
  import opened Records
  import opened Search
  import opened ConfigLoader
  import opened Paging

  class SearchSession {
    /** The text in the search box. */
    var query: string
    /** The flat parameter list of the last configuration document that loaded. */
    var configs: seq<Param>
    /** The reference dataset of variable descriptors. */
    var dataset: seq<Descriptor>
    /** The rows of the last search. */
    var results: seq<Row>
    /** The page of results shown, counted from 0. */
    var page: nat
    /** Whether the last search found nothing. */
    var noData: bool
    /** How many rows a page holds. */
    var rowsPerPage: nat
    /** Whether a file has been chosen; its content reaches FetchData as a parameter. */
    var hasFile: bool
    /** The inputs of the search whose rows `results` holds, None before the first search. */
    ghost var lastSearch: Option<(seq<Param>, seq<Descriptor>, string)>

    /**
      `results` and `noData` always come from one search: none yet (no rows,
      no "No Data Found"), or the search of `lastSearch`'s inputs, with
      `noData` set exactly when it found no row.
     */
    ghost predicate Valid()
      reads this
    {
      match lastSearch
      case None => results == [] && !noData
      case Some(inputs) =>
        results == Search.Search(inputs.0, inputs.1, inputs.2) && noData == (results == [])
    }

    /** The initial state of the hooks. */
    constructor ()
      ensures Valid() && lastSearch == None
      ensures query == "" && configs == [] && dataset == [] && results == []
      ensures page == 0 && !noData && rowsPerPage == 25 && !hasFile
    {
      query := "";
      configs := [];
      dataset := [];
      results := [];
      page := 0;
      noData := false;
      rowsPerPage := 25;
      hasFile := false;
      lastSearch := None;
    }

    /** The search box's onChange: the query becomes the box's text, nothing is searched. */
    method SetQuery(text: string)
      requires Valid()
      modifies this`query
      ensures Valid() && query == text
    {
      query := text;
    }

    /**
      handleSearch: the rows for the current configs, dataset and query
      replace the results, and "No Data Found" shows exactly when there are none.
      The page is left where it was.
     */
    method HandleSearch()
      requires Valid()
      modifies this`results, this`noData, this`lastSearch
      ensures Valid()
      ensures results == Search.Search(configs, dataset, query)
      ensures noData == (results == [])
      ensures lastSearch == Some((configs, dataset, query))
    {
      var filteredResults, z := SearchRows(configs, dataset, query);
      results := filteredResults;
      noData := z == 0;
      lastSearch := Some((configs, dataset, query));
    }

    /** handleKeyDown: Enter searches, any other key changes nothing. */
    method KeyDown(key: string)
      requires Valid()
      modifies this`results, this`noData, this`lastSearch
      ensures Valid()
      ensures key == "Enter" ==> results == Search.Search(configs, dataset, query) && noData == (results == [])
      ensures key == "Enter" ==> lastSearch == Some((configs, dataset, query))
      ensures key != "Enter" ==>
        results == old(results) && noData == old(noData) && lastSearch == old(lastSearch)
    {
      if key == "Enter" {
        HandleSearch();
      }
    }

    /**
      The effect on `configs`: a non-empty parameter list is searched at
      once; an empty one leaves the previous results standing.
     */
    method ConfigsChanged()
      requires Valid()
      modifies this`results, this`noData, this`lastSearch
      ensures Valid()
      ensures |configs| > 0 ==>
        results == Search.Search(configs, dataset, query) && noData == (results == [])
      ensures |configs| > 0 ==> lastSearch == Some((configs, dataset, query))
      ensures |configs| == 0 ==>
        results == old(results) && noData == old(noData) && lastSearch == old(lastSearch)
    {
      if |configs| > 0 {
        HandleSearch();
      }
    }

    /**
      The reader's onload handler followed by the effect on `configs`: an
      upload that loads replaces the configs and is searched when non-empty;
      one that does not load (the handler throws) changes nothing.
     */
    method ConfigRead(upload: Option<ConfigDocument>) returns (outcome: Result<seq<Param>, LoadError>)
      requires Valid()
      modifies this`configs, this`results, this`noData, this`lastSearch
      ensures Valid()
      ensures outcome == Load(upload)
      ensures outcome.Failure? ==>
        configs == old(configs) && results == old(results) && noData == old(noData) && lastSearch == old(lastSearch)
      ensures outcome.Success? ==> configs == outcome.value
      ensures outcome.Success? && |configs| > 0 ==>
        results == Search.Search(configs, old(dataset), old(query)) && noData == (results == [])
      ensures outcome.Success? && |configs| > 0 ==> lastSearch == Some((configs, old(dataset), old(query)))
      ensures outcome.Success? && |configs| == 0 ==>
        results == old(results) && noData == old(noData) && lastSearch == old(lastSearch)
    {
      outcome := FlattenConfig(upload);
      if outcome.Success? {
        configs := outcome.value;
        ConfigsChanged();
      }
    }

    /** handleFileChange: a non-empty selection makes a file chosen; an empty one changes nothing. */
    method FileChange(fileCount: nat)
      requires Valid()
      modifies this`hasFile
      ensures Valid()
      ensures hasFile == (old(hasFile) || fileCount > 0)
    {
      if fileCount > 0 {
        hasFile := true;
      }
    }

    /**
      The effect on the chosen file (and on mounting): the fetched dataset
      replaces the old one and, when a file has been chosen, its parsed text
      is loaded as ConfigRead does. The outcome is None when no file is chosen.
     */
    method FetchData(fetched: seq<Descriptor>, upload: Option<ConfigDocument>)
      returns (outcome: Option<Result<seq<Param>, LoadError>>)
      requires Valid()
      modifies this`dataset, this`configs, this`results, this`noData, this`lastSearch
      ensures Valid()
      ensures dataset == fetched
      ensures outcome.Some? <==> hasFile
      ensures !hasFile ==>
        configs == old(configs) && results == old(results) && noData == old(noData) && lastSearch == old(lastSearch)
      ensures hasFile ==> outcome.value == Load(upload)
      ensures hasFile && outcome.value.Failure? ==>
        configs == old(configs) && results == old(results) && noData == old(noData) && lastSearch == old(lastSearch)
      ensures hasFile && outcome.value.Success? ==> configs == outcome.value.value
      ensures hasFile && outcome.value.Success? && |configs| > 0 ==>
        results == Search.Search(configs, fetched, query) && noData == (results == [])
      ensures hasFile && outcome.value.Success? && |configs| > 0 ==> lastSearch == Some((configs, fetched, query))
      ensures hasFile && outcome.value.Success? && |configs| == 0 ==>
        results == old(results) && noData == old(noData) && lastSearch == old(lastSearch)
    {
      dataset := fetched;
      outcome := None;
      if hasFile {
        var loaded := ConfigRead(upload);
        outcome := Some(loaded);
      }
    }

    /** handleChangePage: the table moves to the chosen page. */
    method ChangePage(newPage: nat)
      requires Valid()
      modifies this`page
      ensures Valid() && page == newPage
    {
      page := newPage;
    }

    /** handleChangeRowsPerPage: the new page size, and back to the first page. */
    method ChangeRowsPerPage(value: nat)
      requires Valid()
      modifies this`rowsPerPage, this`page
      ensures Valid() && rowsPerPage == value && page == 0
    {
      rowsPerPage := value;
      page := 0;
    }

    /** The rows the table body shows: none under "No Data Found", else the current page. */
    function DisplayedRows(): (r: seq<Row>)
      reads this
      ensures noData ==> r == []
      ensures !noData ==> r == PageRows(results, page, rowsPerPage)
    {
      if noData then [] else PageRows(results, page, rowsPerPage)
    }

    /** The number in the first column of the displayed row at `index`. */
    function DisplayedNumber(index: nat): nat
      reads this
    {
      RowNumber(page, rowsPerPage, index)
    }

    /** The "Records:" count next to the uploaded file's name. */
    function RecordCount(): nat
      reads this
    {
      |results|
    }

    /**
      Whatever the state, a displayed row is a row of the last search's results,
      numbered by its 1-based position among them, and a page never shows
      more than `rowsPerPage` rows.
     */
    lemma DisplayedRowsAreResults(index: nat)
      requires Valid()
      requires index < |DisplayedRows()|
      ensures |DisplayedRows()| <= rowsPerPage
      ensures 1 <= DisplayedNumber(index) <= RecordCount()
      ensures DisplayedRows()[index] == results[DisplayedNumber(index) - 1]
      ensures lastSearch.Some? &&
        DisplayedRows()[index] in Search.Search(lastSearch.value.0, lastSearch.value.1, lastSearch.value.2)
    {
      PageShape(results, page, rowsPerPage);
      RowNumberNamesItsRow(results, page, rowsPerPage, index);
    }
  }
}
